/**
 * The `get_comment_count_for_user` and `get_comments_for_user` renderers of
 * the `djutils_tags` library, which treat an inactive user as having no
 * comments at all.
 */
module CommentsActive {
  import opened Framework
  import opened CommentTags

  /** What the count renderer stores: 0 for an inactive user, else the user's public comments. */
  function CountFor(user: User, db: seq<Comment>): (n: nat)
    ensures !user.isActive ==> n == 0
    ensures user.isActive ==> n == |set i: nat | i < |db| && db[i].author == user.id && db[i].isPublic|
  {
    if !user.isActive then 0 else PublicCount(db, user)
  }

  /** A row the list renderer shows: public, by the active user, and of the content type when one is given. */
  predicate Listed(user: User, ctype: Option<string>, c: Comment)
  {
    user.isActive && c.author == user.id && c.isPublic && (ctype.None? || c.contentType == ctype.value)
  }

  /**
   * What the list renderer stores: nothing for an inactive user, else the
   * user's public comments, narrowed to one content type when a model was
   * named.
   */
  function CommentsFor(user: User, ctype: Option<string>, db: seq<Comment>): (r: seq<Comment>)
    ensures forall c :: multiset(r)[c] == if Listed(user, ctype, c) then multiset(db)[c] else 0
    ensures !user.isActive ==> r == []
  {
    var queryset := if !user.isActive then [] else PublicCommentsBy(db, user);
    if ctype.Some? && user.isActive then OfContentType(queryset, ctype.value) else queryset
  }

  /** The model the list renderer narrows by: only a non-empty model name, and only for an active user. */
  predicate NarrowsBy(node: CommentsNode, user: User)
  {
    node.model.Some? && node.model.value != "" && user.isActive
  }

  /** `user.is_active` for a resolved visitor: False for the anonymous visitor. */
  predicate IsActive(visitor: Option<User>)
  {
    visitor.Some? && visitor.value.isActive
  }

  /** The value the count renderer stores, or what it raises. */
  function CountValue(vars: map<string, Value>, node: CountNode, db: seq<Comment>): (r: Result<Value, RenderError>)
    ensures r.Ok? <==> node.user in vars && (vars[node.user].UserV? || vars[node.user].AnonymousV?)
    ensures node.user !in vars ==> r == Err(VariableDoesNotExist(node.user))
    ensures r.Ok? ==> r.value.IntV? && 0 <= r.value.i
    ensures r.Ok? && vars[node.user].AnonymousV? ==> r.value == IntV(0)
    ensures r.Ok? && vars[node.user].UserV? ==> r.value == IntV(CountFor(vars[node.user].user, db))
  {
    var visitor := ResolveVisitor(vars, node.user);
    if visitor.Err? then Err(visitor.error)
    else if !IsActive(visitor.value) then Ok(IntV(0))
    else Ok(IntV(PublicCount(db, visitor.value.value)))
  }

  /** The value the list renderer stores, or what it raises. */
  function CommentsValue(vars: map<string, Value>, node: CommentsNode, db: seq<Comment>, contentTypes: map<string, string>)
    : (r: Result<Value, RenderError>)
    ensures r.Ok? <==> node.user in vars && (vars[node.user].UserV? || vars[node.user].AnonymousV?)
                       && (vars[node.user].UserV? && NarrowsBy(node, vars[node.user].user) ==> node.model.value in contentTypes)
    ensures node.user !in vars ==> r == Err(VariableDoesNotExist(node.user))
    ensures r.Ok? && vars[node.user].AnonymousV? ==> r.value == CommentsV([])
    ensures r.Ok? && vars[node.user].UserV? && !NarrowsBy(node, vars[node.user].user) ==>
      r.value == CommentsV(CommentsFor(vars[node.user].user, None, db))
    ensures r.Ok? && vars[node.user].UserV? && NarrowsBy(node, vars[node.user].user) ==>
      r.value == CommentsV(CommentsFor(vars[node.user].user, Some(contentTypes[node.model.value]), db))
  {
    var visitor := ResolveVisitor(vars, node.user);
    if visitor.Err? then Err(visitor.error)
    else if visitor.value.None? then Ok(CommentsV([]))
    else
      var user := visitor.value.value;
      if NarrowsBy(node, user) then
        var ctype := ContentTypeOf(contentTypes, node.model.value);
        if ctype.Err? then Err(ctype.error) else Ok(CommentsV(CommentsFor(user, Some(ctype.value), db)))
      else Ok(CommentsV(CommentsFor(user, None, db)))
  }

  /** `UserCommentCountNode.render`: writes the count under the node's variable and renders nothing. */
  method RenderCount(node: CountNode, context: Context, db: seq<Comment>) returns (r: Result<string, RenderError>)
    modifies context
    ensures var v := CountValue(old(context.vars), node, db);
      if v.Ok? then r == Ok("") && context.vars == old(context.vars)[node.contextVar := v.value]
      else r == Err(v.error) && context.vars == old(context.vars)
  {
    var visitor := ResolveVisitor(context.vars, node.user);
    if visitor.Err? {
      return Err(visitor.error);
    }
    var count;
    if !IsActive(visitor.value) {
      count := 0;
    } else {
      count := PublicCount(db, visitor.value.value);
    }
    context.Set(node.contextVar, IntV(count));
    return Ok("");
  }

  /**
   * `UserCommentsNode.render`: starts from no rows or the user's public
   * rows, narrows by content type when a model is named and the user is
   * active, writes the rows under the node's variable and renders nothing.
   */
  method RenderComments(node: CommentsNode, context: Context, db: seq<Comment>, contentTypes: map<string, string>)
    returns (r: Result<string, RenderError>)
    modifies context
    ensures var v := CommentsValue(old(context.vars), node, db, contentTypes);
      if v.Ok? then r == Ok("") && context.vars == old(context.vars)[node.contextVar := v.value]
      else r == Err(v.error) && context.vars == old(context.vars)
  {
    var visitor := ResolveVisitor(context.vars, node.user);
    if visitor.Err? {
      return Err(visitor.error);
    }
    var queryset;
    if !IsActive(visitor.value) {
      queryset := [];
    } else {
      queryset := PublicCommentsBy(db, visitor.value.value);
    }
    if node.model.Some? && node.model.value != "" && IsActive(visitor.value) {
      var ctype := ContentTypeOf(contentTypes, node.model.value);
      if ctype.Err? {
        return Err(ctype.error);
      }
      queryset := OfContentType(queryset, ctype.value);
    }
    context.Set(node.contextVar, CommentsV(queryset));
    return Ok("");
  }

  /** The count tag counts exactly the rows the list tag without a model lists. */
  lemma CountMatchesList(user: User, db: seq<Comment>)
    ensures CountFor(user, db) == |CommentsFor(user, None, db)|
  {
  }
}
