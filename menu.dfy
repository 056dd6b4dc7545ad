/**
 * The `menu` template tag: a `SimpleMenu` that renders one configured menu
 * as a list of (label, url, active) items, and a `MenuNode` that renders one
 * menu per consecutive pair of components of a menu path.
 *
 * Rendering a template is not modelled as text: a rendered piece records
 * which template was rendered and with which variables.
 */
module Menu {
  import opened Framework

  // ---------------------------------------------------------------------
  // `s.rstrip('"\'').lstrip('"\'')`
  // ---------------------------------------------------------------------

  predicate IsQuote(c: char)
  {
    c == '"' || c == '\''
  }

  /** Every character of `s` is a quote. */
  predicate AllQuotes(s: string)
  {
    forall i :: 0 <= i < |s| ==> IsQuote(s[i])
  }

  /** Neither end of `s` is a quote. */
  predicate Unquoted(s: string)
  {
    s == [] || (!IsQuote(s[0]) && !IsQuote(s[|s| - 1]))
  }

  /** `s.rstrip('"\'')`: drops the quotes that end `s`. */
  function RStrip(s: string): (r: string)
    ensures |r| <= |s| && r == s[..|r|] && AllQuotes(s[|r|..])
    ensures r == [] || !IsQuote(r[|r| - 1])
  {
    if s != [] && IsQuote(s[|s| - 1]) then
      var init := s[..|s| - 1];
      var r := RStrip(init);
      assert s[|r|..] == init[|r|..] + [s[|s| - 1]];
      r
    else s
  }

  /** `s.lstrip('"\'')`: drops the quotes that begin `s`. */
  function LStrip(s: string): (r: string)
    ensures |r| <= |s| && r == s[|s| - |r|..] && AllQuotes(s[..|s| - |r|])
    ensures r == [] || !IsQuote(r[0])
  {
    if s != [] && IsQuote(s[0]) then
      var tail := s[1..];
      var r := LStrip(tail);
      assert s[..|s| - |r|] == [s[0]] + tail[..|tail| - |r|];
      r
    else s
  }

  /** One path component with the quotes at both of its ends removed. */
  function Strip(s: string): (r: string)
    ensures Unquoted(r)
  {
    var kept := RStrip(s);
    var r := LStrip(kept);
    assert r != [] ==> r[|r| - 1] == kept[|kept| - 1];
    r
  }

  /** The component list comprehension of `MenuNode.render`. */
  function StripAll(path: seq<string>): (r: seq<string>)
    ensures |r| == |path|
    ensures forall i :: 0 <= i < |r| ==> Unquoted(r[i])
    ensures forall i :: 0 <= i < |r| ==> r[i] == Strip(path[i])
  {
    seq(|path|, i requires 0 <= i < |path| => Strip(path[i]))
  }

  lemma {:induction false} RStripQuoted(a: string, b: string)
    requires a == [] || !IsQuote(a[|a| - 1])
    requires AllQuotes(b)
    ensures RStrip(a + b) == a
    decreases |b|
  {
    if b == [] {
      assert a + b == a;
    } else {
      var s := a + b;
      assert s[|s| - 1] == b[|b| - 1];
      assert s[..|s| - 1] == a + b[..|b| - 1];
      RStripQuoted(a, b[..|b| - 1]);
    }
  }

  lemma {:induction false} LStripQuoted(a: string, b: string)
    requires AllQuotes(a)
    requires b == [] || !IsQuote(b[0])
    ensures LStrip(a + b) == b
    decreases |a|
  {
    if a == [] {
      assert a + b == b;
    } else {
      var s := a + b;
      assert s[0] == a[0];
      assert s[1..] == a[1..] + b;
      LStripQuoted(a[1..], b);
    }
  }

  /**
   * The stripped component is characterised outright: quotes, then a middle
   * with no quote at either end, then quotes, strips to that middle.
   */
  lemma StripCharacterised(a: string, m: string, b: string)
    requires AllQuotes(a) && AllQuotes(b) && Unquoted(m)
    ensures Strip(a + m + b) == m
  {
    if m == [] {
      assert a + m + b == a + b;
      assert AllQuotes(a + b);
      RStripQuoted([], a + b);
      assert [] + (a + b) == a + b;
      LStripQuoted([], []);
    } else {
      assert a + m + b == (a + m) + b;
      RStripQuoted(a + m, b);
      LStripQuoted(a, m);
    }
  }

  /** Stripping twice is stripping once. */
  lemma StripIdempotent(s: string)
    ensures Strip(Strip(s)) == Strip(s)
  {
    var m := Strip(s);
    StripCharacterised([], m, []);
    assert [] + m + [] == m;
  }

  lemma StripAllIdempotent(path: seq<string>)
    ensures StripAll(StripAll(path)) == StripAll(path)
  {
    forall i | 0 <= i < |path|
      ensures StripAll(StripAll(path))[i] == StripAll(path)[i]
    {
      StripIdempotent(path[i]);
    }
  }

  // ---------------------------------------------------------------------
  // `SimpleMenu`
  // ---------------------------------------------------------------------

  /** One configured `(item_label, urlname)` pair. */
  datatype Entry = Entry(itemLabel: string, view: string)

  /** One `(label, reverse(view), view == active)` triple of `item_list`. */
  datatype Item = Item(itemLabel: string, url: string, active: bool)

  /** A rendered menu: a named template with its context, or `menu.html` with `item_list` and `depth`. */
  datatype Rendered =
    | FromTemplate(template: string, vars: map<string, Value>)
    | SimpleMenuHtml(items: seq<Item>, depth: int)

  /** What rendering a menu raises: an unknown menu name, or a view `reverse` cannot resolve. */
  datatype MenuError = KeyError(menu: string) | NoReverseMatch(view: string)

  /** The item list of one menu, or the first view (in configured order) that `reverse` cannot resolve. */
  function ItemsOf(entries: seq<Entry>, active: Option<string>, urls: map<string, string>)
    : (r: Result<seq<Item>, MenuError>)
    ensures r.Ok? <==> forall j :: 0 <= j < |entries| ==> entries[j].view in urls
    ensures r.Ok? ==> |r.value| == |entries|
    ensures r.Ok? ==> forall j :: 0 <= j < |entries| ==>
      r.value[j] == Item(entries[j].itemLabel, urls[entries[j].view], Some(entries[j].view) == active)
    ensures r.Err? ==> exists j :: (0 <= j < |entries| && r.error == NoReverseMatch(entries[j].view)
      && entries[j].view !in urls && forall k :: 0 <= k < j ==> entries[k].view in urls)
  {
    if entries == [] then Ok([])
    else
      var init, last := entries[..|entries| - 1], entries[|entries| - 1];
      var head := ItemsOf(init, active, urls);
      if head.Err? then head
      else if last.view !in urls then Err(NoReverseMatch(last.view))
      else Ok(head.value + [Item(last.itemLabel, urls[last.view], Some(last.view) == active)])
  }

  /** Once a prefix of the entries fails, the whole list fails with the same error. */
  lemma {:induction false} ItemsOfFailedPrefix(entries: seq<Entry>, i: nat, active: Option<string>, urls: map<string, string>)
    requires i <= |entries|
    requires ItemsOf(entries[..i], active, urls).Err?
    ensures ItemsOf(entries, active, urls) == ItemsOf(entries[..i], active, urls)
    decreases |entries|
  {
    if i < |entries| {
      var init := entries[..|entries| - 1];
      assert init[..i] == entries[..i];
      ItemsOfFailedPrefix(init, i, active, urls);
    } else {
      assert entries[..i] == entries;
    }
  }

  /** `SimpleMenu.render` as a value: the rendered `menu.html`, or what it raises. */
  function SimpleRenderOf(menus: map<string, seq<Entry>>, menuName: string, depth: int, active: Option<string>,
                          urls: map<string, string>): (r: Result<Rendered, MenuError>)
    ensures menuName !in menus ==> r == Err(KeyError(menuName))
    ensures r.Ok? <==> menuName in menus && forall e :: e in menus[menuName] ==> e.view in urls
    ensures r.Ok? ==> (r.value.SimpleMenuHtml? && r.value.depth == depth
      && |r.value.items| == |menus[menuName]|
      && forall j :: 0 <= j < |r.value.items| ==>
           (r.value.items[j].itemLabel == menus[menuName][j].itemLabel
            && r.value.items[j].url == urls[menus[menuName][j].view]
            && (r.value.items[j].active <==> Some(menus[menuName][j].view) == active)))
  {
    if menuName !in menus then Err(KeyError(menuName))
    else
      var items := ItemsOf(menus[menuName], active, urls);
      if items.Err? then Err(items.error) else Ok(SimpleMenuHtml(items.value, depth))
  }

  /** `SimpleMenu`: the configured menus, each a list of entries. */
  class SimpleMenu {
    const menus: map<string, seq<Entry>>

    constructor (menulist: map<string, seq<Entry>>)
      ensures menus == menulist
    {
      menus := menulist;
    }

    /** `SimpleMenu.render`: builds `item_list` one entry at a time and renders `menu.html` with it. */
    method Render(menuName: string, depth: int, active: Option<string>, urls: map<string, string>)
      returns (r: Result<Rendered, MenuError>)
      ensures r == SimpleRenderOf(menus, menuName, depth, active, urls)
    {
      if menuName !in menus {
        return Err(KeyError(menuName));
      }
      var entries := menus[menuName];
      var itemList: seq<Item> := [];
      for i := 0 to |entries|
        invariant ItemsOf(entries[..i], active, urls) == Ok(itemList)
      {
        var e := entries[i];
        assert entries[..i + 1][..i] == entries[..i];
        if e.view !in urls {
          ItemsOfFailedPrefix(entries, i + 1, active, urls);
          return Err(NoReverseMatch(e.view));
        }
        itemList := itemList + [Item(e.itemLabel, urls[e.view], Some(e.view) == active)];
      }
      assert entries[..|entries|] == entries;
      return Ok(SimpleMenuHtml(itemList, depth));
    }
  }

  // ---------------------------------------------------------------------
  // `MenuNode`
  // ---------------------------------------------------------------------

  /** `'menu/%s.html' % menu_name` */
  function TemplateName(menuName: string): string
  {
    "menu/" + menuName + ".html"
  }

  const ActiveKey := "active"

  /**
   * `MenuNode._render_menu` as a value: the menu's own template, rendered
   * after `context['active']` is set, when it exists; `SimpleMenu.render`
   * otherwise. Gives the rendered piece (or error) and the context's new
   * variables.
   */
  function RenderMenuOf(menus: map<string, seq<Entry>>, urls: map<string, string>, templates: set<string>,
                        vars: map<string, Value>, menuName: string, active: string, depth: int)
    : (r: (Result<Rendered, MenuError>, map<string, Value>))
    ensures r.0.Ok? <==> Renderable(menus, urls, templates, menuName)
    ensures TemplateName(menuName) in templates ==>
      (r.0.Ok? && r.0.value.FromTemplate? && r.0.value.template == TemplateName(menuName)
       && r.0.value.vars == r.1 && ActiveKey in r.1 && r.1[ActiveKey] == StrV(active))
    ensures TemplateName(menuName) !in templates ==>
      (r.0 == SimpleRenderOf(menus, menuName, depth, Some(active), urls) && r.1 == vars)
    ensures forall key :: key != ActiveKey ==> (key in r.1 <==> key in vars)
    ensures forall key :: key != ActiveKey && key in vars ==> r.1[key] == vars[key]
  {
    if TemplateName(menuName) in templates then
      var vars' := vars[ActiveKey := StrV(active)];
      (Ok(FromTemplate(TemplateName(menuName), vars')), vars')
    else
      (SimpleRenderOf(menus, menuName, depth, Some(active), urls), vars)
  }

  /** Menu `i` of the path renders (as far as the configuration allows it to). */
  predicate Renderable(menus: map<string, seq<Entry>>, urls: map<string, string>, templates: set<string>,
                       menuName: string)
  {
    TemplateName(menuName) in templates
    || (menuName in menus && forall e :: e in menus[menuName] ==> e.view in urls)
  }

  /** `piece` is menu `i` of `path`: named `path[i]`, with active item `path[i + 1]`, at depth `i`. */
  predicate Shows(menus: map<string, seq<Entry>>, urls: map<string, string>, templates: set<string>,
                  path: seq<string>, i: nat, piece: Rendered)
    requires i + 1 < |path|
  {
    if TemplateName(path[i]) in templates then
      piece.FromTemplate? && piece.template == TemplateName(path[i])
      && ActiveKey in piece.vars && piece.vars[ActiveKey] == StrV(path[i + 1])
    else
      SimpleRenderOf(menus, path[i], i, Some(path[i + 1]), urls) == Ok(piece)
  }

  /**
   * The first `k` menus of `path`, rendered in order into the context whose
   * variables start as `vars`: the pieces (or the first error) and the
   * context's variables afterwards.
   */
  function RenderPairsOf(menus: map<string, seq<Entry>>, urls: map<string, string>, templates: set<string>,
                         path: seq<string>, vars: map<string, Value>, k: nat)
    : (r: (Result<seq<Rendered>, MenuError>, map<string, Value>))
    requires k == 0 || k < |path|
    ensures r.0.Ok? <==> forall i :: 0 <= i < k ==> Renderable(menus, urls, templates, path[i])
    ensures r.0.Ok? ==> |r.0.value| == k
    ensures r.0.Ok? ==> forall i :: 0 <= i < k ==> Shows(menus, urls, templates, path, i, r.0.value[i])
    ensures forall key :: key != ActiveKey ==> (key in r.1 <==> key in vars)
    ensures forall key :: key != ActiveKey && key in vars ==> r.1[key] == vars[key]
    decreases k
  {
    if k == 0 then (Ok([]), vars)
    else
      var (head, vars') := RenderPairsOf(menus, urls, templates, path, vars, k - 1);
      if head.Err? then (head, vars')
      else
        var (piece, vars'') := RenderMenuOf(menus, urls, templates, vars', path[k - 1], path[k], k - 1);
        if piece.Err? then (Err(piece.error), vars'') else (Ok(head.value + [piece.value]), vars'')
  }

  /** Once a menu fails, the later menus are not rendered: the error and the context stay as they were. */
  lemma {:induction false} RenderPairsFailed(menus: map<string, seq<Entry>>, urls: map<string, string>,
                                             templates: set<string>, path: seq<string>, vars: map<string, Value>,
                                             j: nat, k: nat)
    requires j <= k && (k == 0 || k < |path|)
    requires RenderPairsOf(menus, urls, templates, path, vars, j).0.Err?
    ensures RenderPairsOf(menus, urls, templates, path, vars, k) == RenderPairsOf(menus, urls, templates, path, vars, j)
    decreases k
  {
    if j < k {
      RenderPairsFailed(menus, urls, templates, path, vars, j, k - 1);
    }
  }

  /** The number of menus a path of `n` components renders: one per consecutive pair. */
  function PairCount(n: nat): (k: nat)
    ensures k == 0 || k < n
    ensures n >= 1 ==> k + 1 == n
  {
    if n == 0 then 0 else n - 1
  }

  /** A path of fewer than two components renders nothing and leaves the context alone. */
  lemma ShortPathRendersNothing(menus: map<string, seq<Entry>>, urls: map<string, string>, templates: set<string>,
                                path: seq<string>, vars: map<string, Value>)
    requires |path| < 2
    ensures RenderPairsOf(menus, urls, templates, path, vars, PairCount(|path|)) == (Ok([]), vars)
  {
  }

  /** `MenuNode`: the menu path, and the context it last rendered into. */
  class MenuNode {
    var menuPath: seq<string>
    var context: Context?

    constructor (menuPath: seq<string>)
      ensures this.menuPath == menuPath && context == null
    {
      this.menuPath := menuPath;
      context := null;
    }

    /**
     * `MenuNode.render`: strips the path components, keeps the context, then
     * renders each consecutive pair of components in order.
     */
    method Render(context: Context, menu: SimpleMenu, urls: map<string, string>, templates: set<string>)
      returns (r: Result<seq<Rendered>, MenuError>)
      modifies this, context
      ensures menuPath == StripAll(old(menuPath))
      ensures this.context == context
      ensures (r, context.vars) ==
        RenderPairsOf(menu.menus, urls, templates, menuPath, old(context.vars), PairCount(|menuPath|))
    {
      StripPath();
      this.context := context;
      r := RenderPairs(menu, urls, templates);
    }

    /** The first loop of `MenuNode.render`: strips every component, once per component. */
    method StripPath()
      modifies this`menuPath
      ensures menuPath == StripAll(old(menuPath))
    {
      var n := |menuPath|;
      for i := 0 to n
        invariant |menuPath| == n
        invariant menuPath == if i == 0 then old(menuPath) else StripAll(old(menuPath))
      {
        if i > 0 {
          StripAllIdempotent(old(menuPath));
        }
        menuPath := StripAll(menuPath);
      }
      if n == 0 {
        assert menuPath == StripAll(old(menuPath));
      }
    }

    /** The `''.join([...])` of `MenuNode.render`: one menu per consecutive pair, in order. */
    method RenderPairs(menu: SimpleMenu, urls: map<string, string>, templates: set<string>)
      returns (r: Result<seq<Rendered>, MenuError>)
      requires context != null
      modifies context
      ensures (r, context.vars) ==
        RenderPairsOf(menu.menus, urls, templates, menuPath, old(context.vars), PairCount(|menuPath|))
    {
      var pieces: seq<Rendered> := [];
      for index := 0 to PairCount(|menuPath|)
        invariant (Ok(pieces), context.vars) ==
          RenderPairsOf(menu.menus, urls, templates, menuPath, old(context.vars), index)
      {
        var piece := RenderMenu(menu, urls, templates, menuPath[index], menuPath[index + 1], index);
        if piece.Err? {
          RenderPairsFailed(menu.menus, urls, templates, menuPath, old(context.vars), index + 1, PairCount(|menuPath|));
          return Err(piece.error);
        }
        pieces := pieces + [piece.value];
      }
      return Ok(pieces);
    }

    /** `MenuNode._render_menu`: the menu's own template when it exists, else the simple menu. */
    method RenderMenu(menu: SimpleMenu, urls: map<string, string>, templates: set<string>,
                      menuName: string, active: string, depth: int)
      returns (r: Result<Rendered, MenuError>)
      requires context != null
      modifies context
      ensures var (piece, vars) := RenderMenuOf(menu.menus, urls, templates, old(context.vars), menuName, active, depth);
        r == piece && context.vars == vars
    {
      if TemplateName(menuName) in templates {
        context.Set(ActiveKey, StrV(active));
        return Ok(FromTemplate(TemplateName(menuName), context.vars));
      }
      r := menu.Render(menuName, depth, Some(active), urls);
    }
  }

  /** `do_menu`: the tokens after the tag name are the menu path. */
  function MenuPathOf(bits: seq<string>): (path: seq<string>)
    ensures |path| == if bits == [] then 0 else |bits| - 1
    ensures forall i :: 0 <= i < |path| ==> path[i] == bits[i + 1]
  {
    if bits == [] then [] else bits[1..]
  }

  /** `do_menu`: a node for the split tag contents. */
  method DoMenu(bits: seq<string>) returns (node: MenuNode)
    ensures fresh(node) && node.menuPath == MenuPathOf(bits) && node.context == null
  {
    node := new MenuNode(MenuPathOf(bits));
  }
}
