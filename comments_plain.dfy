/**
 * The `get_comment_count_for_user` and `get_comments_for_user` renderers of
 * the `djutils` tag libraries, which do not look at the user's active flag.
 */
module CommentsPlain {
  import opened Framework
  import opened CommentTags
  import CommentsActive

  /** A row the list renderer shows: public, by the user, and of the content type when one is given. */
  predicate Listed(user: User, ctype: Option<string>, c: Comment)
  {
    c.author == user.id && c.isPublic && (ctype.None? || c.contentType == ctype.value)
  }

  /** What the list renderer stores: the user's public comments, narrowed to one content type when a model was named. */
  function CommentsFor(user: User, ctype: Option<string>, db: seq<Comment>): (r: seq<Comment>)
    ensures forall c :: multiset(r)[c] == if Listed(user, ctype, c) then multiset(db)[c] else 0
  {
    var queryset := PublicCommentsBy(db, user);
    if ctype.Some? then OfContentType(queryset, ctype.value) else queryset
  }

  /** The value the count renderer stores, or what it raises. */
  function CountValue(vars: map<string, Value>, node: CountNode, db: seq<Comment>): (r: Result<Value, RenderError>)
    ensures r.Ok? <==> node.user in vars && vars[node.user].UserV?
    ensures node.user !in vars ==> r == Err(VariableDoesNotExist(node.user))
    ensures r.Ok? ==> var user := vars[node.user].user;
      r.value == IntV(|set i: nat | i < |db| && db[i].author == user.id && db[i].isPublic|)
  {
    var user := ResolveUser(vars, node.user);
    if user.Err? then Err(user.error) else Ok(IntV(PublicCount(db, user.value)))
  }

  /** The value the list renderer stores, or what it raises. */
  function CommentsValue(vars: map<string, Value>, node: CommentsNode, db: seq<Comment>, contentTypes: map<string, string>)
    : (r: Result<Value, RenderError>)
    ensures r.Ok? <==> node.user in vars && vars[node.user].UserV?
                       && (node.model.Some? && node.model.value != "" ==> node.model.value in contentTypes)
    ensures node.user !in vars ==> r == Err(VariableDoesNotExist(node.user))
    ensures r.Ok? && !(node.model.Some? && node.model.value != "") ==>
      r.value == CommentsV(CommentsFor(vars[node.user].user, None, db))
    ensures r.Ok? && node.model.Some? && node.model.value != "" ==>
      r.value == CommentsV(CommentsFor(vars[node.user].user, Some(contentTypes[node.model.value]), db))
  {
    var user := ResolveUser(vars, node.user);
    if user.Err? then Err(user.error)
    else if node.model.Some? && node.model.value != "" then
      var ctype := ContentTypeOf(contentTypes, node.model.value);
      if ctype.Err? then Err(ctype.error) else Ok(CommentsV(CommentsFor(user.value, Some(ctype.value), db)))
    else Ok(CommentsV(CommentsFor(user.value, None, db)))
  }

  /** `UserCommentCountNode.render`: writes the count under the node's variable and renders nothing. */
  method RenderCount(node: CountNode, context: Context, db: seq<Comment>) returns (r: Result<string, RenderError>)
    modifies context
    ensures var v := CountValue(old(context.vars), node, db);
      if v.Ok? then r == Ok("") && context.vars == old(context.vars)[node.contextVar := v.value]
      else r == Err(v.error) && context.vars == old(context.vars)
  {
    var user := ResolveUser(context.vars, node.user);
    if user.Err? {
      return Err(user.error);
    }
    var count := PublicCount(db, user.value);
    context.Set(node.contextVar, IntV(count));
    return Ok("");
  }

  /**
   * `UserCommentsNode.render`: starts from the user's public rows, narrows
   * by content type when a model is named, writes the rows under the node's
   * variable and renders nothing.
   */
  method RenderComments(node: CommentsNode, context: Context, db: seq<Comment>, contentTypes: map<string, string>)
    returns (r: Result<string, RenderError>)
    modifies context
    ensures var v := CommentsValue(old(context.vars), node, db, contentTypes);
      if v.Ok? then r == Ok("") && context.vars == old(context.vars)[node.contextVar := v.value]
      else r == Err(v.error) && context.vars == old(context.vars)
  {
    var user := ResolveUser(context.vars, node.user);
    if user.Err? {
      return Err(user.error);
    }
    var queryset := PublicCommentsBy(db, user.value);
    if node.model.Some? && node.model.value != "" {
      var ctype := ContentTypeOf(contentTypes, node.model.value);
      if ctype.Err? {
        return Err(ctype.error);
      }
      queryset := OfContentType(queryset, ctype.value);
    }
    context.Set(node.contextVar, CommentsV(queryset));
    return Ok("");
  }

  /**
   * The two libraries store the same values for an active user; for an
   * inactive one the `djutils_tags` library stores 0 and no rows instead.
   */
  lemma ActiveUserSameAsPlain(vars: map<string, Value>, count: CountNode, list: CommentsNode,
                              db: seq<Comment>, contentTypes: map<string, string>)
    requires count.user in vars && vars[count.user].UserV?
    requires list.user in vars && vars[list.user].UserV?
    ensures vars[count.user].user.isActive ==> CommentsActive.CountValue(vars, count, db) == CountValue(vars, count, db)
    ensures vars[list.user].user.isActive ==>
      CommentsActive.CommentsValue(vars, list, db, contentTypes) == CommentsValue(vars, list, db, contentTypes)
    ensures !vars[count.user].user.isActive ==> CommentsActive.CountValue(vars, count, db) == Ok(IntV(0))
    ensures !vars[list.user].user.isActive ==> CommentsActive.CommentsValue(vars, list, db, contentTypes) == Ok(CommentsV([]))
  {
  }

  /**
   * The anonymous visitor: the `djutils_tags` library stores 0 and no rows
   * for it, where the other libraries do not resolve it as a user.
   */
  lemma AnonymousVisitor(vars: map<string, Value>, count: CountNode, list: CommentsNode,
                         db: seq<Comment>, contentTypes: map<string, string>)
    requires count.user in vars && vars[count.user].AnonymousV?
    requires list.user in vars && vars[list.user].AnonymousV?
    ensures CommentsActive.CountValue(vars, count, db) == Ok(IntV(0))
    ensures CommentsActive.CommentsValue(vars, list, db, contentTypes) == Ok(CommentsV([]))
    ensures CountValue(vars, count, db) == Err(NotAUser(count.user))
    ensures CommentsValue(vars, list, db, contentTypes) == Err(NotAUser(list.user))
  {
  }
}
