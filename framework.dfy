/**
 * The web framework primitives the djutils helpers are written against,
 * reduced to plain values: optional values and results, the values a
 * template context can hold, requests with their query parameters and
 * session, users and comment records, and the mutable template context.
 */
module Framework {

  datatype Option<T> = None | Some(value: T)

  /** The outcome of an operation that may raise: a value or the error raised. */
  datatype Result<T, E> = Ok(value: T) | Err(error: E)

  /** One `key=value` entry of a request's query string, as the framework decodes it. */
  datatype QueryPair = QueryPair(key: string, value: string)

  /**
   * A request: its path, its GET parameters as `request.GET.items()` yields
   * them (one pair per parameter name, holding that name's last value, in
   * the `QueryDict`'s order), and its session (None when the request has no
   * session attribute at all).
   */
  datatype Request = Request(path: string, get: seq<QueryPair>, session: Option<map<string, string>>)

  /** A user account; only the primary key and the active flag matter here. */
  datatype User = User(id: nat, isActive: bool)

  /** A comment row: its author, its public flag and the content type of the object commented on. */
  datatype Comment = Comment(author: nat, isPublic: bool, contentType: string)

  /** The values a template context can hold. */
  datatype Value =
    | NoneV
    | BoolV(b: bool)
    | IntV(i: int)
    | StrV(s: string)
    | RequestV(request: Request)
    | UserV(user: User)
    | AnonymousV  // the visitor who is not logged in: `is_active` is False and there is no primary key
    | CommentsV(comments: seq<Comment>)

  /**
   * `context.get(key, default)`: the value stored under `key`, or the default
   * when the key is absent.
   */
  function GetOr(vars: map<string, Value>, key: string, default: Value): Value
  {
    if key in vars then vars[key] else default
  }

  /**
   * Python truthiness: None, False, zero, the empty string and the empty
   * list are false; every other value is true.
   */
  predicate Truthy(v: Value)
  {
    match v
    case NoneV => false
    case BoolV(b) => b
    case IntV(i) => i != 0
    case StrV(s) => s != ""
    case RequestV(_) => true
    case UserV(_) => true
    case AnonymousV => true
    case CommentsV(cs) => cs != []
  }

  /**
   * A `threading.local()` object as one thread sees it: a mutable set of
   * named attributes, none of them present when it is created.
   */
  class ThreadLocal {
    var attrs: map<string, Value>

    constructor ()
      ensures attrs == map[]
    {
      attrs := map[];
    }
  }

  /** The position of the first `c` in `s`. */
  function FirstIndex(c: char, s: string): (i: nat)
    requires c in s
    ensures i < |s| && s[i] == c && c !in s[..i]
  {
    if s[0] == c then 0
    else
      var j := FirstIndex(c, s[1..]);
      assert s[..j + 1] == [s[0]] + s[1..][..j];
      j + 1
  }

  /** The first `c` after a prefix without one is the one that ends the prefix. */
  lemma FirstIndexAfter(c: char, a: string, b: string)
    requires c !in a
    ensures FirstIndex(c, a + [c] + b) == |a|
  {
    var s := a + [c] + b;
    assert s[|a|] == c;
  }

  /** `sep.join(parts)` */
  function Join(sep: string, parts: seq<string>): string
  {
    if parts == [] then ""
    else if |parts| == 1 then parts[0]
    else parts[0] + sep + Join(sep, parts[1..])
  }

  /** A template context: a mutable mapping from variable names to values. */
  class Context {
    var vars: map<string, Value>

    constructor (vars: map<string, Value>)
      ensures this.vars == vars
    {
      this.vars := vars;
    }

    /** `context[key] = value` */
    method Set(key: string, value: Value)
      modifies this
      ensures vars == old(vars)[key := value]
    {
      vars := vars[key := value];
    }
  }
}
