# djutils in Dafny

A model of the parts of djutils (a collection of Django helpers) that have
sequential logic, with proofs of what they promise:

- the two `paginator` inclusion tags:
  - the page-number window and its `show_first`/`show_last` flags;
  - the link prefix that drops the `page` query parameter;
  - the context keys read, with defaults in the `djutils_tags` library and KeyErrors in the `djutils` one;
- the captcha middleware slot (in its two copies) and `CaptchaField.clean`;
- the `get_comment_count_for_user` / `get_comments_for_user` template tags: their argument parsers and renderers, with and without the active-user check;
- the `menu` tag: quote stripping of the menu path, one menu per consecutive pair of components, and `SimpleMenu`'s item list;
- the `cacheable` and `stales_cache` decorators over a cache held by a `Cache` object;
- `PickleField` and its `PickleDescriptor`: lazy unpickling on first read, caching, and writing both the value and its base 64 pickle.

Files, one module each:

- `framework.dfy`: the Django values the helpers work on. These are context values, requests, users, comment rows, the template context and a thread-local object.
- `paging.dfy`: the page window and link prefix that both `paginator` tags share.
- `pagination_defensive.dfy`: the `paginator` of `templatetags/djutils_tags`.
- `pagination_strict.dfy`: the `paginator` of `templatetags/djutils`.
- `captcha_middleware.dfy` and `captcha_apps_middleware.dfy`: the two captcha middlewares.
- `captcha_field.dfy`: the captcha form field.
- `comment_tags.dfy`: the shared comment-tag parsers, the comment table filters and the context lookups.
- `comments_active.dfy` and `comments_plain.dfy`: the renderers of the three comment-tag libraries.
- `menu.dfy`: the menu tag.
- `cache.dfy`: the cache decorators.
- `base64.dfy` and `pickle_field.dfy`: the pickle field.

Python 2 semantics are written out where the code relies on them:

- The template context is untyped. Only `pages` is compared across types, as Python 2 compares mixed types: None sorts below every number, and other non-numbers sort above. A non-numeric `page` is never compared: `page - adjacent_pages` raises TypeError first. `bool` counts as an integer.
- Truthiness is stated per value kind.
- In the `djutils` `paginator`, a missing key raises KeyError for the first absent key in the order the code reads them (`PaginationStrict.FirstMissing`, `PaginationStrict.MissingPagesReportedEarly`).

## Model

| member | source | states |
|---|---|---|
| `Paging.Window` | trunk/djutils/templatetags/djutils_tags/pagination.py:28-30 | `n` is in the window iff `page-adjacent <= n <= page+adjacent`, `n > 0` and `n <= pages` (Python 2 comparison). The window is strictly ascending, so it has no duplicates, and holds at most `2*adjacent+1` numbers. |
| `Paging.PageWindow` | trunk/djutils/templatetags/djutils_tags/pagination.py:43-44 | `show_first` iff 1 is not listed; `show_last` iff `pages` is not listed. The current page is listed when `1 <= page <= pages` and `adjacent >= 0`. At most `2*adjacent+1` pages. `pages <= 0` gives an empty list with both flags true. |
| `Paging.PageNumbersExact` | djutils/templatetags/djutils/pagination.py:26-28 | Any strictly ascending list with the window's members is exactly the computed page list. |
| `Paging.KeptMembers` | trunk/djutils/templatetags/djutils_tags/pagination.py:20-22 | A query pair is kept iff it is one of the request's pairs and its key is not `page`. No pairs are added. |
| `Paging.KeptSingle` | trunk/djutils/templatetags/djutils_tags/pagination.py:20-22 | A single pair is kept iff its key is not `page`. |
| `Paging.KeptConcat` | trunk/djutils/templatetags/djutils_tags/pagination.py:20-22 | Filtering commutes with concatenation. Together with `KeptSingle`, this fixes the result as the non-`page` pairs of `GET.items()`, each as often as it occurs there, in that order. |
| `Paging.KeptWithoutPage` | djutils/templatetags/djutils/pagination.py:20-23 | Without a `page` key, every pair is kept, in the order `GET.items()` gives. |
| `Paging.LinkPrefix` | trunk/djutils/templatetags/djutils_tags/pagination.py:19-25 | The `qs.append` loop and `+=` build exactly `path?k=v&...` from the kept pairs, in order, with a trailing `&` iff a pair was kept. |
| `Paging.LinkPrefixReadsBack` | djutils/templatetags/djutils/pagination.py:24-25 | Assume the path has no `?`, and no kept key or value holds `&` and no kept key holds `=`. Then the prefix's query string, split on `&` and each piece at its first `=`, gives back exactly the kept pairs. So the trailing `&` never produces an empty or merged parameter. |
| `Paging.PageLinkReadsBack` | trunk/djutils/templatetags/djutils_tags/pagination.py:24-25 | Under the same assumptions, and with no `&` in `n`, the prefix followed by `page=n` reads back as the kept pairs followed by one `page` pair. This holds whether or not any pair was kept. |
| `Paging.AmpersandValueSplits` | trunk/djutils/templatetags/djutils_tags/pagination.py:22 | The pairs are written unescaped. So a kept value `a&b` under key `q` reads back as two pairs, `q=a` and `b=`. |
| `Paging.Assemble` | djutils/templatetags/djutils/pagination.py:29-43 | The result dictionary is coherent: its page list and flags are those of the window for its `page`, `pages` and `adjacent`. |
| `PaginationDefensive.PaginatorOf` | trunk/djutils/templatetags/djutils_tags/pagination.py:18-45 | Succeeds iff `request` is present and a request, `page` (if present) is numeric, and `is_paginated` is present. The errors come in the order the code reads: KeyError for `request`, AttributeError for a non-request, TypeError for a non-numeric `page`, then KeyError for `is_paginated`. `page`/`pages` default to 1. `hits`, `results_per_page`, `next`, `previous`, `has_next` and `has_previous` default to None. |
| `PaginationDefensive.Paginator` | trunk/djutils/templatetags/djutils_tags/pagination.py:5-45 | The tag, with the link loop, returns exactly `PaginatorOf`. |
| `PaginationDefensive.DefaultsGiveOnePage` | trunk/djutils/templatetags/djutils_tags/pagination.py:26-27 | With `page` and `pages` absent, the list is `[1]` and neither flag is shown. |
| `PaginationStrict.PaginatorOf` | djutils/templatetags/djutils/pagination.py:18-43 | Succeeds iff `request` is a request, every displayed key is present and `page` is numeric. Any KeyError names an absent key. The nine values are passed through unchanged. |
| `PaginationStrict.FirstMissing` | djutils/templatetags/djutils/pagination.py:31-40 | Reports an absent key iff one of the keys read is absent. The key it names is one of them and is absent, and every key read before it is present. |
| `PaginationStrict.Display` | djutils/templatetags/djutils/pagination.py:29-43 | The dictionary passes the nine context values through unchanged, keeps the link prefix, and its page numbers and show flags are coherent with the window. |
| `PaginationStrict.MissingPagesReportedEarly` | djutils/templatetags/djutils/pagination.py:26-31 | A missing `pages` is reported before a missing `is_paginated` exactly when the comprehension reaches a positive page. Otherwise `is_paginated` is reported. |
| `PaginationStrict.Paginator` | djutils/templatetags/djutils/pagination.py:5-43 | The tag, with the link loop, returns exactly `PaginatorOf`. |
| `CaptchaMiddleware.SessionCaptcha` | djutils/captcha/middleware.py:13-15 | None without a session or with an empty one. Otherwise `session.get('captcha')`: the stored string, or None when the key is absent. |
| `CaptchaMiddleware.CurrentCaptcha` | djutils/captcha/middleware.py:8-9 | An unset slot reads as None. |
| `CaptchaMiddleware.CaptchaModule.constructor` | djutils/captcha/middleware.py:6-9 | Before any request, `get_current_captcha()` is None. |
| `CaptchaMiddleware.CaptchaModule.GetCurrentCaptcha` | djutils/captcha/middleware.py:8-9 | Returns the stored slot, or None when it was never written. |
| `CaptchaMiddleware.CaptchaModule.ProcessRequest` | djutils/captcha/middleware.py:11-16 | Overwrites the slot with `SessionCaptcha(request)` whatever it held. Nothing else changes. A later read returns exactly that value. |
| `AppsCaptchaMiddleware.CaptchaModule.constructor` | djutils/apps/captcha/middleware.py:1 | The module is bound to the project's shared thread-local object. |
| `AppsCaptchaMiddleware.CaptchaModule.GetCurrentCaptcha` | djutils/apps/captcha/middleware.py:3-4 | None while the slot is unset. |
| `AppsCaptchaMiddleware.CaptchaModule.ProcessRequest` | djutils/apps/captcha/middleware.py:6-11 | Overwrites only the `captcha` attribute of the shared object. A later read returns exactly the session's captcha. |
| `CaptchaField.Clean` | trunk/djutils/apps/captcha/fields.py:29-35 | A falsy captcha fails with "You must enable cookies." whatever was submitted. Otherwise a different value fails with "Incorrect! Try again.". The clean succeeds iff the captcha is truthy and exactly equal to the value, and then returns the value unchanged. |
| `CaptchaField.CleanField` | trunk/djutils/apps/captcha/fields.py:30 | Reads the slot through `get_current_captcha` and gives `Clean` of it. The slot is not changed. |
| `CaptchaField.ValidateRequest` | trunk/djutils/apps/captcha/fields.py:31-35 | After the middleware, a submission is accepted iff the request's session holds exactly that captcha. It fails with the cookies message iff the session has no usable captcha. |
| `CommentTags.Split` | trunk/djutils/templatetags/djutils_tags/comments.py:31 | Every field is a non-empty run without whitespace. There are no fields iff the text is all whitespace. `SplitSpaced` pins the fields for every text. |
| `CommentTags.SplitSkipsBlank` | trunk/djutils/templatetags/djutils_tags/comments.py:31 | Leading whitespace does not change the fields. |
| `CommentTags.SplitSpaced` | trunk/djutils/templatetags/djutils_tags/comments.py:68 | Words separated by any non-empty whitespace runs, with any whitespace before and after, split into exactly those words. Every text has this shape, so this determines `split()` everywhere. |
| `CommentTags.SplitJoinedWords` | trunk/djutils/templatetags/djutils_tags/comments.py:31 | `split()` of words joined by single spaces gives back those words. |
| `CommentTags.ParseCount` | trunk/djutils/templatetags/djutils_tags/comments.py:31-36 | Fewer than 4 tokens gives "tag takes 3 arguments". `bits[2] != 'as'` gives "2rd argument must be 'as'". Otherwise the node is `(bits[1], bits[3])`. |
| `CommentTags.ParseCountIgnoresExtra` | djutils/templatetags/djutils/comments.py:25-30 | Tokens after the fourth do not change the outcome. |
| `CommentTags.CountTagRoundTrip` | trunk/djutils/templatetags/djutils/comments.py:27-32 | Parsing the written tag `get_comment_count_for_user u as v` gives back the node. |
| `CommentTags.ParseComments` | trunk/djutils/templatetags/djutils_tags/comments.py:68-83 | Fewer than 4 tokens gives an error. With 5 tokens: requires `bits[3] == 'as'`, model `bits[2]`, variable `bits[4]`. With 4 or 6+ tokens: requires `bits[2] == 'as'`, no model, variable `bits[3]`. Each form has its own message. |
| `CommentTags.CommentsTagRoundTrip` | trunk/djutils/templatetags/djutils/comments.py:61-76 | Parsing the written list tag, with or without a model, gives back the node. |
| `CommentTags.Filter` | trunk/djutils/templatetags/djutils_tags/comments.py:51 | A filtered queryset holds each passing row as often as the table does, and no other row. |
| `CommentTags.FilterCount` | trunk/djutils/templatetags/djutils_tags/comments.py:19 | `.count()` of a filter is the number of table positions that pass it. |
| `CommentTags.PublicCount` | djutils/templatetags/djutils/comments.py:13 | The count is the number of public rows written by the user. |
| `CommentTags.ResolveUser` | djutils/templatetags/djutils/comments.py:11 | Resolves iff the variable is in the context and holds a user. A missing variable raises VariableDoesNotExist. |
| `CommentTags.ResolveVisitor` | trunk/djutils/templatetags/djutils_tags/comments.py:14-15 | Resolves iff the variable holds a user or the anonymous visitor. The anonymous visitor resolves to no user. A missing variable raises VariableDoesNotExist. |
| `CommentTags.ContentTypeOf` | trunk/djutils/templatetags/djutils_tags/comments.py:53-54 | The model's content type when the model is registered, an error otherwise. |
| `CommentsActive.CountFor` | trunk/djutils/templatetags/djutils_tags/comments.py:16-19 | 0 for an inactive user. Otherwise the number of the user's public comments. |
| `CommentsActive.CommentsFor` | trunk/djutils/templatetags/djutils_tags/comments.py:48-55 | No rows for an inactive user. Otherwise exactly the user's public rows, narrowed to the content type iff one is given. |
| `CommentsActive.CountValue` | trunk/djutils/templatetags/djutils_tags/comments.py:14-20 | Fails iff the variable holds neither a user nor the anonymous visitor. It stores 0 for the anonymous visitor. Otherwise it stores `CountFor` the user: 0 for an inactive user, else the number of the user's public comments. |
| `CommentsActive.CommentsValue` | trunk/djutils/templatetags/djutils_tags/comments.py:46-56 | Fails iff the variable holds neither a user nor the anonymous visitor, or the model is looked up (given and the user active) and not registered. The anonymous visitor gets no rows. Otherwise the rows narrowed iff the model is given and the user is active. |
| `CommentsActive.RenderCount` | trunk/djutils/templatetags/djutils_tags/comments.py:14-21 | Writes only `context[context_var]` and renders `''`. A failure leaves the context unchanged. |
| `CommentsActive.RenderComments` | trunk/djutils/templatetags/djutils_tags/comments.py:46-57 | Writes only `context[context_var]` and renders `''`. A failure leaves the context unchanged. |
| `CommentsPlain.CommentsFor` | trunk/djutils/templatetags/djutils/comments.py:44-48 | Exactly the user's public rows, narrowed to the content type iff one is given. No active-user check. |
| `CommentsPlain.CountValue` | djutils/templatetags/djutils/comments.py:11-15 | Fails iff the user does not resolve. Otherwise the number of the user's public rows, whether or not the user is active. |
| `CommentsPlain.CommentsValue` | trunk/djutils/templatetags/djutils/comments.py:42-49 | Fails iff the user does not resolve, or a model is given and not registered. Otherwise the rows narrowed iff a model is given. |
| `CommentsPlain.RenderCount` | trunk/djutils/templatetags/djutils/comments.py:13-17 | Writes only `context[context_var]` and renders `''`. A failure leaves the context unchanged. |
| `CommentsPlain.RenderComments` | trunk/djutils/templatetags/djutils/comments.py:42-50 | Writes only `context[context_var]` and renders `''`. A failure leaves the context unchanged. |
| `CommentsPlain.AnonymousVisitor` | trunk/djutils/templatetags/djutils_tags/comments.py:14-16 | For the anonymous visitor, the `djutils_tags` library stores 0 and no rows. The other libraries do not accept it as a user. |
| `CommentsPlain.ActiveUserSameAsPlain` | trunk/djutils/templatetags/djutils_tags/comments.py:48-52 | For an active user, both libraries store the same values. For an inactive one, the `djutils_tags` library stores 0 and an empty list. |
| `Menu.RStrip` | trunk/djutils/templatetags/djutils/menu.py:103 | `rstrip` removes only quotes, only at the end, and leaves no quote at the end. |
| `Menu.LStrip` | trunk/djutils/templatetags/djutils/menu.py:103-104 | `lstrip` removes only quotes, only at the start, and leaves no quote at the start. |
| `Menu.Strip` | trunk/djutils/templatetags/djutils/menu.py:103-104 | A stripped component neither begins nor ends with a quote. |
| `Menu.StripCharacterised` | trunk/djutils/templatetags/djutils/menu.py:103-104 | Quotes, then a middle with unquoted ends, then quotes, strips to exactly that middle. Interior characters are untouched. |
| `Menu.StripIdempotent` | trunk/djutils/templatetags/djutils/menu.py:101-104 | Stripping twice is stripping once. |
| `Menu.StripAll` | trunk/djutils/templatetags/djutils/menu.py:103-104 | The path keeps its length. Component `i` is `Strip` of the original component `i`, so it ends up unquoted with its interior untouched. |
| `Menu.StripAllIdempotent` | trunk/djutils/templatetags/djutils/menu.py:101-104 | Stripping the whole path again changes nothing. |
| `Menu.ItemsOf` | trunk/djutils/templatetags/djutils/menu.py:68-70 | One item per configured entry, in order: `(label, reverse(view), view == active)`. Otherwise, the first view `reverse` cannot resolve. |
| `Menu.ItemsOfFailedPrefix` | trunk/djutils/templatetags/djutils/menu.py:69-70 | A failure in the first entries is the failure of the whole list. |
| `Menu.SimpleRenderOf` | trunk/djutils/templatetags/djutils/menu.py:68-72 | An unknown menu raises KeyError. Otherwise it succeeds iff every view resolves, rendering `menu.html` at the given depth with one item per entry. An item is flagged iff its view is the active one. |
| `Menu.SimpleMenu.constructor` | trunk/djutils/templatetags/djutils/menu.py:18-40 | Keeps the configured menus. |
| `Menu.SimpleMenu.Render` | trunk/djutils/templatetags/djutils/menu.py:42-72 | The append loop builds exactly `SimpleRenderOf`. |
| `Menu.RenderPairsOf` | trunk/djutils/templatetags/djutils/menu.py:107-109 | The first `k` menus succeed iff each is renderable. On success there are `k` pieces, and piece `i` is menu `path[i]` with active item `path[i+1]` at depth `i`. Only `context['active']` may change. |
| `Menu.RenderPairsFailed` | trunk/djutils/templatetags/djutils/menu.py:107-109 | After a failing menu, later menus change neither the outcome nor the context. |
| `Menu.PairCount` | trunk/djutils/templatetags/djutils/menu.py:109 | A path of `n >= 1` components has `n-1` pairs. |
| `Menu.ShortPathRendersNothing` | trunk/djutils/templatetags/djutils/menu.py:107-109 | A path of 0 or 1 components renders nothing and leaves the context unchanged. |
| `Menu.MenuNode.constructor` | trunk/djutils/templatetags/djutils/menu.py:96-97 | Keeps the path. |
| `Menu.MenuNode.Render` | trunk/djutils/templatetags/djutils/menu.py:99-109 | Leaves the node's path stripped and keeps the context. The output and the context's new variables are `RenderPairsOf` of the stripped path. |
| `Menu.MenuNode.StripPath` | trunk/djutils/templatetags/djutils/menu.py:101-104 | Stripping once per component leaves the path stripped exactly once. |
| `Menu.MenuNode.RenderPairs` | trunk/djutils/templatetags/djutils/menu.py:107-109 | Renders the pairs in order and stops at the first failure, as `RenderPairsOf` says. |
| `Menu.RenderMenuOf` | trunk/djutils/templatetags/djutils/menu.py:111-121 | Succeeds iff the menu is renderable. With its own template, it renders that template with `active` set in the context. Otherwise it renders as `SimpleMenu.render` and leaves the context unchanged. No other variable changes. |
| `Menu.MenuNode.RenderMenu` | trunk/djutils/templatetags/djutils/menu.py:111-121 | A menu with its own template is rendered with `context['active']` set. Otherwise it falls back to `SimpleMenu.render` and leaves the context unchanged. |
| `Menu.MenuPathOf` | trunk/djutils/templatetags/djutils/menu.py:123-125 | The path is every token after the tag name. |
| `Menu.DoMenu` | trunk/djutils/templatetags/djutils/menu.py:123-125 | A new node on that path. |
| `CacheDecorators.FormatKey` | djutils/cache/decorators.py:7 | A key formats only when every attribute the template names is present. A KeyError names a referenced attribute that is missing. `LiteralKey` and `NamedKey` pin the text. |
| `CacheDecorators.KeyDependsOnReferenced` | djutils/cache/decorators.py:7 | The key depends only on the attributes the template names. Objects that agree on those share a cache entry. |
| `CacheDecorators.LiteralKey` | djutils/cache/decorators.py:22 | A template without `%` is its own key. |
| `CacheDecorators.NamedKey` | djutils/cache/decorators.py:7 | `%(name)s` stands for the named attribute. |
| `CacheDecorators.Cache.constructor` | djutils/cache/decorators.py:1 | The model's starting state: an empty cache. The source uses Django's shared cache, which it imports here and never creates. |
| `CacheDecorators.Cache.Set` | djutils/cache/decorators.py:11 | Stores one entry. |
| `CacheDecorators.Cache.Delete` | djutils/cache/decorators.py:23 | Removes one entry. |
| `CacheDecorators.CacheableOf` | djutils/cache/decorators.py:7-12 | The wrapped method is called iff the entry is missing or None, and then its result is returned. Otherwise the cache is unchanged. Afterwards the entry holds the returned value. No other key changes. |
| `CacheDecorators.Cacheable` | djutils/cache/decorators.py:3-16 | The decorated method returns and stores as `CacheableOf` says. A malformed key raises before the cache is touched. |
| `CacheDecorators.StalesCache` | djutils/cache/decorators.py:18-28 | Deletes only the computed key, passes every argument through and returns the method's result unchanged. |
| `CacheDecorators.SecondCallHits` | djutils/cache/decorators.py:8-12 | A second call returns the stored value without calling the method. If the first result was None, the method is called again. |
| `CacheDecorators.StaledEntryRecomputed` | djutils/cache/decorators.py:21-24 | After `stales_cache`, the next `cacheable` call recomputes and stores. |
| `Base64.Decode` | trunk/djutils/fields/__init__.py:21 | A string whose length is not a multiple of 4 is rejected. A decoded string yields between 3 bytes per group minus 2 and 3 bytes per group. `RoundTrip` pins the content. |
| `Base64.Encode` | trunk/djutils/fields/__init__.py:28 | Output has 4 characters per started group of 3 bytes. |
| `Base64.RoundTrip` | trunk/djutils/fields/__init__.py:21 | `b64decode(b64encode(b))` is `b`. |
| `PickleFields.AttnameOf` | trunk/djutils/fields/__init__.py:38-39 | The attribute is the name followed by `_pickled`, so it never equals the name. |
| `PickleFields.AttnameInjective` | trunk/djutils/fields/__init__.py:39 | Distinct field names get distinct attributes. |
| `PickleFields.GetDbPrepLookup` | trunk/djutils/fields/__init__.py:41-42 | Every lookup fails with "Can't make comparisons against pickled data.". |
| `PickleFields.LoadRaw` | trunk/djutils/fields/__init__.py:20-21 | A missing raw attribute raises AttributeError. A value is produced only by base 64 decoding and then unpickling the raw text. |
| `PickleFields.GetOf` | trunk/djutils/fields/__init__.py:18-24 | A cached value is returned without decoding. Otherwise the raw attribute is decoded and cached on success. Nothing changes on failure. |
| `PickleFields.SetOf` | trunk/djutils/fields/__init__.py:26-29 | Caches the value and stores `b64encode(pickle(v))` under the attribute name. Nothing else changes. |
| `PickleFields.SecondGetCached` | trunk/djutils/fields/__init__.py:18-24 | After one successful read, later reads return the cached value and change nothing. |
| `PickleFields.GetAfterSet` | trunk/djutils/fields/__init__.py:26-29 | After `__set__(v)`, `__get__` returns exactly `v`. |
| `PickleFields.RawReadsBack` | trunk/djutils/fields/__init__.py:28 | The raw text written for `v` alone brings `v` back on first read. |
| `PickleFields.PickleField.GetAttname` | trunk/djutils/fields/__init__.py:38-39 | `get_attname` is `AttnameOf(name)`. |
| `PickleFields.PickleField.ContributeToClass` | trunk/djutils/fields/__init__.py:44-46 | Names the field and its attribute and adds the field to the class. Installs a new descriptor for this field under its name. |
| `PickleFields.PickleDescriptor.constructor` | trunk/djutils/fields/__init__.py:11-12 | Keeps its field. |
| `PickleFields.PickleDescriptor.Get` | trunk/djutils/fields/__init__.py:14-24 | On the class (`instance` None), returns the descriptor itself. Otherwise reads and caches as `GetOf` says. |
| `PickleFields.PickleDescriptor.Set` | trunk/djutils/fields/__init__.py:26-29 | Updates the instance dictionary as `SetOf` says. |

## Left out

- Template rendering is not modelled as text.
  - A rendered menu is a record: the template name with its variables, or `menu.html` with its item list and depth.
  - `''.join` of the menus is the sequence of those records.
  - The inclusion tag's `paginator.html` is not modelled.
- The comment table is a sequence of rows, and a queryset is the list of rows it yields.
  - Laziness and database ordering are not modelled.
  - `Comment.objects.none()` is the empty list.
  - `get_model(*model.split('.'))` followed by `ContentType.objects.get_for_model` is a registry from model tokens to content types. Any token may be registered.
- `CommentTags.ContentTypeOf`: the model token is looked up exactly as `split()` yields it, quotes included (`CommentTags.CommentsTagRoundTrip`). So the documented form `{% get_comments_for_user user "blog.Post" as comment_list %}` looks up `"blog.Post"` with its quotes. Django's `get_model('"blog', 'Post"')` finds no model, and the source then raises. The model does not constrain the registry's keys, so it does not capture that this documented form always fails.
- `CommentTags.ResolveUser`: only plain variable names are resolved.
  - Literals, dotted lookups and filters of `template.Variable` are not modelled.
  - The anonymous visitor is its own value (`AnonymousV`). The `djutils_tags` renderers treat it as inactive, as the source does.
  - Any other value that is not a user is reported as NotAUser. In the `djutils_tags` library the source raises AttributeError for a value without `is_active`. In the other libraries `Comment.objects.filter(user=...)` may instead filter by primary key (an integer), filter `IS NULL` (None), or raise, for the anonymous visitor too.
- `CommentTags.Split`: `str.split()` is modelled on ASCII whitespace only.
- `split_contents()` of `do_menu` (quote-aware splitting) is not modelled. `Menu.DoMenu` takes the already split tokens.
- `CommentQuerysetNode` and `get_comment_queryset` are not modelled. They are the framework's comment node with one extra filter.
- Captcha:
  - Each middleware's thread-local object is modelled as one thread's view of it. Isolation between threads is concurrency and is left out.
  - The session is a string map, so a stored captcha is always a string.
  - The messages are kept untranslated.
- `Paging.LinkPrefixReadsBack`, `Paging.PageLinkReadsBack`: the reading side is a simplified `parse_qsl`. It splits on `&` only and each piece at its first `=`. It does not split on `;`, decode `%XX`, or turn `+` into a space. The source writes the decoded `GET` values back unescaped. The read-back lemmas assume no `&` in keys and values and no `=` in keys. A value holding `&` does not read back (`Paging.AmpersandValueSplits`). Under Django's own reader, a value holding `+`, `%`, `;` or `#` does not read back either, and the model says nothing about that.
- `Paging.LinkPrefix`: the request's `get` stands for `request.GET.items()`, one pair per parameter name. A parameter repeated in the query string keeps only its last value in every page link. The order is the `QueryDict`'s, not the query string's.
- `reverse()` is a map from view names to URLs.
- The menu configuration `settings.MENU_ITEMS` and the global `menu` are passed in as a `SimpleMenu`.
- A TemplateDoesNotExist raised while rendering a menu's own template (for example by an include) is not modelled; it would also fall back to `SimpleMenu`.
- The cache `timeout` (expiry) is not modelled, and neither is any backend's own key rule.
  - The wrapped methods are pure functions of the object's attributes (and arguments), and do not use the cache themselves.
  - The object's attributes are given as the `str()` of each.
- `CacheDecorators.FormatKey`: only `%%` and `%(name)s` are formatted.
  - Other conversions, flags, widths and names containing parentheses are reported as UnsupportedFormat or IncompleteFormat.
  - A `%s` whose argument is the whole attribute dictionary is also reported as unsupported.
- The pickle format is left out: `pickle.dumps`/`pickle.loads` are a `Pickler` whose faithfulness is a hypothesis of `PickleFields.RawReadsBack`.
- `PickleFields.PickleDescriptor.Set`: `pickle.dumps` cannot fail in the model. In the source the value is cached (line 27) before it is pickled, so a failing pickle leaves the new value cached next to the old raw text. That path is not modelled.
- `Base64.Decode`: it accepts the encoder's output, but it rejects characters outside the alphabet and padding outside the last group, which Python's decoder skips or tolerates.
- Django's `Field.contribute_to_class` is reduced to setting the name and attribute name and appending to the class's field list. A field's name before that is the empty string, where Django has None.
