/**
 * What the three `comments` template-tag libraries share: the whitespace
 * split of the tag's contents, the `get_comment_count_for_user` and
 * `get_comments_for_user` argument parsers (identical text in all three
 * files), the comment-table filters their renderers use, and the lookups a
 * renderer does in the template context.
 */
module CommentTags {
  import opened Framework

  // ---------------------------------------------------------------------
  // `token.contents.split()`
  // ---------------------------------------------------------------------

  /** The ASCII whitespace `str.split()` separates on. */
  predicate IsSpace(c: char)
  {
    c == ' ' || c == '\t' || c == '\n' || c == '\r' || c == '\U{0B}' || c == '\U{0C}'
  }

  /** A field of `str.split()`'s result: non-empty and without whitespace. */
  ghost predicate Word(t: string)
  {
    t != [] && forall i :: 0 <= i < |t| ==> !IsSpace(t[i])
  }

  /** A run of whitespace, possibly empty. */
  ghost predicate Blank(t: string)
  {
    forall i :: 0 <= i < |t| ==> IsSpace(t[i])
  }

  /** The length of the run of non-space characters `s` starts with. */
  function WordEnd(s: string): (n: nat)
    requires s != [] && !IsSpace(s[0])
    ensures 1 <= n <= |s|
    ensures forall i :: 0 <= i < n ==> !IsSpace(s[i])
    ensures n < |s| ==> IsSpace(s[n])
  {
    if |s| == 1 || IsSpace(s[1]) then 1 else 1 + WordEnd(s[1..])
  }

  /** `s.split()`: the maximal runs of non-space characters, in order. */
  function Split(s: string): (r: seq<string>)
    ensures forall t :: t in r ==> Word(t)
    ensures r == [] <==> Blank(s)
    decreases |s|
  {
    if s == [] then []
    else if IsSpace(s[0]) then Split(s[1..])
    else
      var n := WordEnd(s);
      [s[..n]] + Split(s[n..])
  }

  lemma {:induction false} WordEndOfWord(w: string, rest: string)
    requires Word(w)
    requires rest == [] || IsSpace(rest[0])
    ensures WordEnd(w + rest) == |w|
  {
    if |w| > 1 {
      assert (w + rest)[1..] == w[1..] + rest;
      WordEndOfWord(w[1..], rest);
    }
  }

  lemma SplitAfterWord(w: string, rest: string)
    requires Word(w)
    requires rest == [] || IsSpace(rest[0])
    ensures Split(w + rest) == [w] + Split(rest)
  {
    WordEndOfWord(w, rest);
    assert (w + rest)[..|w|] == w;
    assert (w + rest)[|w|..] == rest;
  }

  /** Joining words with single spaces and splitting again gives the words back. */
  lemma {:induction false} SplitJoinedWords(ws: seq<string>)
    requires forall w :: w in ws ==> Word(w)
    ensures Split(Join(" ", ws)) == ws
  {
    if |ws| == 1 {
      SplitAfterWord(ws[0], "");
      assert ws[0] + "" == ws[0];
    } else if |ws| > 1 {
      var rest := Join(" ", ws[1..]);
      assert ws[0] in ws;
      assert Join(" ", ws) == ws[0] + (" " + rest);
      SplitAfterWord(ws[0], " " + rest);
      assert (" " + rest)[1..] == rest;
      SplitJoinedWords(ws[1..]);
      assert ws == [ws[0]] + ws[1..];
    }
  }

  /** Words with the given whitespace runs between them. */
  function Spaced(ws: seq<string>, gaps: seq<string>): string
    requires |gaps| == if ws == [] then 0 else |ws| - 1
  {
    if ws == [] then ""
    else if |ws| == 1 then ws[0]
    else ws[0] + gaps[0] + Spaced(ws[1..], gaps[1..])
  }

  /** Leading whitespace is skipped. */
  lemma {:induction false} SplitSkipsBlank(b: string, s: string)
    requires Blank(b)
    ensures Split(b + s) == Split(s)
  {
    if b == [] {
      assert b + s == s;
    } else {
      assert (b + s)[0] == b[0] && (b + s)[1..] == b[1..] + s;
      SplitSkipsBlank(b[1..], s);
    }
  }

  /**
   * `split()` of words separated by any non-empty whitespace runs, with any
   * whitespace before and after, gives back exactly the words. Every string
   * has this shape, so this determines `Split` everywhere.
   */
  lemma {:induction false} SplitSpaced(lead: string, ws: seq<string>, gaps: seq<string>, trail: string)
    requires forall w :: w in ws ==> Word(w)
    requires |gaps| == if ws == [] then 0 else |ws| - 1
    requires forall g :: g in gaps ==> g != [] && Blank(g)
    requires Blank(lead) && Blank(trail)
    ensures Split(lead + Spaced(ws, gaps) + trail) == ws
    decreases |ws|
  {
    assert lead + Spaced(ws, gaps) + trail == lead + (Spaced(ws, gaps) + trail);
    SplitSkipsBlank(lead, Spaced(ws, gaps) + trail);
    if ws == [] {
      SplitSkipsBlank(trail, "");
      assert trail + "" == trail;
    } else if |ws| == 1 {
      assert ws[0] in ws;
      SplitAfterWord(ws[0], trail);
    } else {
      var rest := gaps[0] + Spaced(ws[1..], gaps[1..]) + trail;
      assert gaps[0] in gaps && ws[0] in ws;
      assert Spaced(ws, gaps) + trail == ws[0] + rest;
      SplitAfterWord(ws[0], rest);
      forall w | w in ws[1..] ensures Word(w) { assert w in ws; }
      forall g | g in gaps[1..] ensures g != [] && Blank(g) { assert g in gaps; }
      SplitSpaced(gaps[0], ws[1..], gaps[1..], trail);
      assert ws == [ws[0]] + ws[1..];
    }
  }

  // ---------------------------------------------------------------------
  // The argument parsers
  // ---------------------------------------------------------------------

  /** The template syntax errors the parsers raise. */
  datatype SyntaxError = TakesThreeArguments | CountAsMisplaced | SecondNotAs | ThirdNotAs
  {
    function Message(): string
    {
      match this
      case TakesThreeArguments => "tag takes 3 arguments"
      case CountAsMisplaced => "2rd argument must be 'as'"
      case SecondNotAs => "2nd argument must be 'as'"
      case ThirdNotAs => "3rd argument must be 'as'"
    }
  }

  /** `UserCommentCountNode(user, context_var)`: two variable names. */
  datatype CountNode = CountNode(user: string, contextVar: string)

  /** `UserCommentsNode(user, context_var, model)` */
  datatype CommentsNode = CommentsNode(user: string, contextVar: string, model: Option<string>)

  const CountTagName := "get_comment_count_for_user"
  const CommentsTagName := "get_comments_for_user"

  /** `do_get_comment_count_for_user` on the split tag contents. */
  function ParseCount(bits: seq<string>): (r: Result<CountNode, SyntaxError>)
    ensures |bits| < 4 ==> r == Err(TakesThreeArguments)
    ensures |bits| >= 4 ==> (r.Ok? <==> bits[2] == "as")
    ensures |bits| >= 4 && bits[2] != "as" ==> r == Err(CountAsMisplaced)
    ensures r.Ok? ==> r.value.user == bits[1] && r.value.contextVar == bits[3]
  {
    if |bits| < 4 then Err(TakesThreeArguments)
    else if bits[2] != "as" then Err(CountAsMisplaced)
    else Ok(CountNode(bits[1], bits[3]))
  }

  /** Tokens after the fourth are ignored. */
  lemma ParseCountIgnoresExtra(bits: seq<string>, extra: seq<string>)
    requires |bits| >= 4
    ensures ParseCount(bits + extra) == ParseCount(bits)
  {
    assert (bits + extra)[1] == bits[1] && (bits + extra)[2] == bits[2] && (bits + extra)[3] == bits[3];
  }

  /**
   * `do_get_comments_for_user` on the split tag contents: five tokens are
   * the form with a model (`user model as var`); any other length from four
   * on is the form without one (`user as var`, extra tokens ignored).
   */
  function ParseComments(bits: seq<string>): (r: Result<CommentsNode, SyntaxError>)
    ensures |bits| < 4 ==> r == Err(TakesThreeArguments)
    ensures |bits| == 5 ==> (r.Ok? <==> bits[3] == "as") && (r.Err? ==> r.error == ThirdNotAs)
    ensures |bits| >= 4 && |bits| != 5 ==> (r.Ok? <==> bits[2] == "as") && (r.Err? ==> r.error == SecondNotAs)
    ensures r.Ok? ==> r.value.user == bits[1]
    ensures r.Ok? ==> (r.value.model.Some? <==> |bits| == 5)
    ensures r.Ok? && |bits| == 5 ==> r.value.model.value == bits[2] && r.value.contextVar == bits[4]
    ensures r.Ok? && |bits| != 5 ==> r.value.contextVar == bits[3]
  {
    if |bits| < 4 then Err(TakesThreeArguments)
    else
      var user := bits[1];
      if |bits| == 5 then
        if bits[3] != "as" then Err(ThirdNotAs) else Ok(CommentsNode(user, bits[4], Some(bits[2])))
      else
        if bits[2] != "as" then Err(SecondNotAs) else Ok(CommentsNode(user, bits[3], None))
  }

  /** The count tag as a template author writes it. */
  function CountTagText(node: CountNode): string
  {
    Join(" ", [CountTagName, node.user, "as", node.contextVar])
  }

  /** The list tag as a template author writes it, with the model when there is one. */
  function CommentsTagText(node: CommentsNode): string
  {
    var model := if node.model.Some? then [node.model.value] else [];
    Join(" ", [CommentsTagName, node.user] + model + ["as", node.contextVar])
  }

  /** Parsing a written count tag gives back the node it was written from. */
  lemma CountTagRoundTrip(node: CountNode)
    requires Word(node.user) && Word(node.contextVar)
    ensures ParseCount(Split(CountTagText(node))) == Ok(node)
  {
    var ws := [CountTagName, node.user, "as", node.contextVar];
    assert Word(CountTagName) && Word("as");
    SplitJoinedWords(ws);
  }

  /** Parsing a written list tag gives back the node, with or without a model. */
  lemma CommentsTagRoundTrip(node: CommentsNode)
    requires Word(node.user) && Word(node.contextVar)
    requires node.model.Some? ==> Word(node.model.value)
    ensures ParseComments(Split(CommentsTagText(node))) == Ok(node)
  {
    var model := if node.model.Some? then [node.model.value] else [];
    var ws := [CommentsTagName, node.user] + model + ["as", node.contextVar];
    assert Word(CommentsTagName) && Word("as");
    assert forall w :: w in ws ==> w in [CommentsTagName, node.user] || w in model || w in ["as", node.contextVar];
    SplitJoinedWords(ws);
  }

  // ---------------------------------------------------------------------
  // The comment table and its filters
  // ---------------------------------------------------------------------

  /** `queryset.filter(...)` over the table's rows, in table order. */
  function Filter(rows: seq<Comment>, keep: Comment -> bool): (r: seq<Comment>)
    ensures forall c :: multiset(r)[c] == if keep(c) then multiset(rows)[c] else 0
  {
    if rows == [] then []
    else
      var init, last := rows[..|rows| - 1], rows[|rows| - 1];
      assert rows == init + [last];
      Filter(init, keep) + (if keep(last) then [last] else [])
  }

  /** The positions of the rows that pass a filter. */
  ghost function Positions(rows: seq<Comment>, keep: Comment -> bool): set<nat>
  {
    set i: nat | i < |rows| && keep(rows[i])
  }

  /** Appending a row adds its position when it passes, and nothing else. */
  lemma PositionsSnoc(rows: seq<Comment>, keep: Comment -> bool)
    requires rows != []
    ensures var n := |rows| - 1;
      Positions(rows, keep) == Positions(rows[..n], keep) + (if keep(rows[n]) then {n} else {})
  {
    var n := |rows| - 1;
    var init := rows[..n];
    var extra: set<nat> := if keep(rows[n]) then {n} else {};
    forall i: nat
      ensures i in Positions(rows, keep) <==> i in Positions(init, keep) + extra
    {
      if i < n {
        assert rows[i] == init[i];
      }
    }
  }

  /** The rows kept by a filter are counted by the positions that pass it. */
  lemma {:induction false} FilterCount(rows: seq<Comment>, keep: Comment -> bool)
    ensures |Filter(rows, keep)| == |Positions(rows, keep)|
  {
    if rows != [] {
      var n := |rows| - 1;
      FilterCount(rows[..n], keep);
      PositionsSnoc(rows, keep);
      assert n !in Positions(rows[..n], keep);
    }
  }

  /** The test `Comment.objects.filter(user=user, is_public=True)` applies to a row. */
  function PublicBy(user: User): Comment -> bool
  {
    (c: Comment) => c.author == user.id && c.isPublic
  }

  /** `Comment.objects.filter(user=user, is_public=True)` */
  function PublicCommentsBy(db: seq<Comment>, user: User): seq<Comment>
  {
    Filter(db, PublicBy(user))
  }

  /** `.count()` of that queryset: the number of public rows written by the user. */
  function PublicCount(db: seq<Comment>, user: User): (n: nat)
    ensures n == |set i: nat | i < |db| && db[i].author == user.id && db[i].isPublic|
  {
    FilterCount(db, PublicBy(user));
    assert Positions(db, PublicBy(user)) == set i: nat | i < |db| && db[i].author == user.id && db[i].isPublic;
    |PublicCommentsBy(db, user)|
  }

  /** `queryset.filter(content_type=ctype)` */
  function OfContentType(rows: seq<Comment>, ctype: string): seq<Comment>
  {
    Filter(rows, (c: Comment) => c.contentType == ctype)
  }

  // ---------------------------------------------------------------------
  // Lookups in the template context and the model registry
  // ---------------------------------------------------------------------

  /** What a renderer raises. */
  datatype RenderError = VariableDoesNotExist(name: string) | NotAUser(name: string) | ModelNotFound(model: string)

  /** `template.Variable(name).resolve(context)`, which must yield a user. */
  function ResolveUser(vars: map<string, Value>, name: string): (r: Result<User, RenderError>)
    ensures r.Ok? <==> name in vars && vars[name].UserV?
    ensures r.Ok? ==> r.value == vars[name].user
    ensures name !in vars ==> r == Err(VariableDoesNotExist(name))
  {
    if name !in vars then Err(VariableDoesNotExist(name))
    else if !vars[name].UserV? then Err(NotAUser(name))
    else Ok(vars[name].user)
  }

  /**
   * `template.Variable(name).resolve(context)` as the `djutils_tags`
   * renderers use it: a user, or None for the anonymous visitor, whose
   * `is_active` is the only attribute they read before branching on it.
   */
  function ResolveVisitor(vars: map<string, Value>, name: string): (r: Result<Option<User>, RenderError>)
    ensures r.Ok? <==> name in vars && (vars[name].UserV? || vars[name].AnonymousV?)
    ensures r.Ok? ==> (r.value.None? <==> vars[name].AnonymousV?)
    ensures r.Ok? && r.value.Some? ==> r.value.value == vars[name].user
    ensures name !in vars ==> r == Err(VariableDoesNotExist(name))
  {
    if name !in vars then Err(VariableDoesNotExist(name))
    else if vars[name].AnonymousV? then Ok(None)
    else if !vars[name].UserV? then Err(NotAUser(name))
    else Ok(Some(vars[name].user))
  }

  /**
   * `ContentType.objects.get_for_model(get_model(*model.split('.')))`: the
   * content type registered for the model token, if any.
   */
  function ContentTypeOf(contentTypes: map<string, string>, model: string): (r: Result<string, RenderError>)
    ensures r.Ok? <==> model in contentTypes
    ensures r.Ok? ==> r.value == contentTypes[model]
  {
    if model in contentTypes then Ok(contentTypes[model]) else Err(ModelNotFound(model))
  }
}
