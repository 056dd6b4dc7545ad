/**
 * The `cacheable` and `stales_cache` method decorators: a cache-aside read
 * of one cache entry whose key is formatted from the object's attributes,
 * and an invalidation of that entry before a call.
 */
module CacheDecorators {
  import opened Framework

  // ---------------------------------------------------------------------
  // `cache_key % self.__dict__`
  // ---------------------------------------------------------------------

  /** What formatting a key raises. */
  datatype FormatError = KeyError(name: string) | IncompleteFormat | UnsupportedFormat(conversion: char)

  function Prepend(prefix: string, r: Result<string, FormatError>): Result<string, FormatError>
  {
    if r.Err? then r else Ok(prefix + r.value)
  }

  /**
   * `template % attrs` for a mapping argument, where `attrs` holds the
   * `str()` of each attribute: `%%` is a literal `%`, `%(name)s` is the
   * named attribute, and the first malformed or missing specifier raises.
   */
  function FormatKey(template: string, attrs: map<string, string>): (r: Result<string, FormatError>)
    ensures r.Ok? ==> Referenced(template) <= attrs.Keys
    ensures r.Err? && r.error.KeyError? ==> r.error.name in Referenced(template) && r.error.name !in attrs
    decreases |template|
  {
    if template == [] then Ok("")
    else if template[0] != '%' then Prepend([template[0]], FormatKey(template[1..], attrs))
    else if |template| == 1 then Err(IncompleteFormat)
    else if template[1] == '%' then Prepend("%", FormatKey(template[2..], attrs))
    else if template[1] != '(' then Err(UnsupportedFormat(template[1]))
    else if ')' !in template[2..] then Err(IncompleteFormat)
    else
      var close := 2 + FirstIndex(')', template[2..]);
      var name := template[2..close];
      if name !in attrs then Err(KeyError(name))
      else if close + 1 == |template| then Err(IncompleteFormat)
      else if template[close + 1] != 's' then Err(UnsupportedFormat(template[close + 1]))
      else Prepend(attrs[name], FormatKey(template[close + 2..], attrs))
  }

  /** The attribute names the template's `%(name)s` specifiers refer to, up to the first malformed one. */
  ghost function Referenced(template: string): set<string>
    decreases |template|
  {
    if template == [] then {}
    else if template[0] != '%' then Referenced(template[1..])
    else if |template| == 1 then {}
    else if template[1] == '%' then Referenced(template[2..])
    else if template[1] != '(' || ')' !in template[2..] then {}
    else
      var close := 2 + FirstIndex(')', template[2..]);
      var name := template[2..close];
      if close + 1 == |template| || template[close + 1] != 's' then {name}
      else {name} + Referenced(template[close + 2..])
  }

  /**
   * The key depends on the attributes the template names and on nothing
   * else: two objects that agree on those attributes share a cache entry.
   */
  lemma {:induction false} KeyDependsOnReferenced(template: string, a: map<string, string>, b: map<string, string>)
    requires forall name :: name in Referenced(template) ==> (name in a <==> name in b)
    requires forall name :: name in Referenced(template) && name in a ==> a[name] == b[name]
    ensures FormatKey(template, a) == FormatKey(template, b)
    decreases |template|
  {
    if template == [] {
    } else if template[0] != '%' {
      KeyDependsOnReferenced(template[1..], a, b);
    } else if |template| == 1 {
    } else if template[1] == '%' {
      KeyDependsOnReferenced(template[2..], a, b);
    } else if template[1] != '(' || ')' !in template[2..] {
    } else {
      var close := 2 + FirstIndex(')', template[2..]);
      if close + 1 < |template| && template[close + 1] == 's' {
        KeyDependsOnReferenced(template[close + 2..], a, b);
      }
    }
  }

  /** A template without `%` is its own key, whatever the attributes. */
  lemma {:induction false} LiteralKey(template: string, attrs: map<string, string>)
    requires '%' !in template
    ensures FormatKey(template, attrs) == Ok(template)
  {
    if template != [] {
      LiteralKey(template[1..], attrs);
      assert template == [template[0]] + template[1..];
    }
  }

  /** Each `%(name)s` stands for the attribute it names. */
  lemma NamedKey(name: string, attrs: map<string, string>)
    requires ')' !in name && name in attrs
    ensures FormatKey("%(" + name + ")s", attrs) == Ok(attrs[name])
  {
    var t := "%(" + name + ")s";
    assert t[2..] == name + ")s";
    FirstIndexAfter(')', name, "s");
    assert name + [')'] + "s" == name + ")s";
    assert t[2..2 + |name|] == name;
    assert t[2 + |name| + 1] == 's';
    assert t[2 + |name| + 2..] == "";
    assert attrs[name] + "" == attrs[name];
  }

  // ---------------------------------------------------------------------
  // The cache and the decorators
  // ---------------------------------------------------------------------

  /** Django's cache as one process sees it: a mutable map from keys to values. */
  class Cache {
    var entries: map<string, Value>

    constructor ()
      ensures entries == map[]
    {
      entries := map[];
    }

    /** `cache.get(key)`: the stored value, None on a miss. */
    function Get(key: string): Value
      reads this
    {
      GetOr(entries, key, NoneV)
    }

    /** `cache.set(key, value, timeout)` */
    method Set(key: string, value: Value)
      modifies this
      ensures entries == old(entries)[key := value]
    {
      entries := entries[key := value];
    }

    /** `cache.delete(key)` */
    method Delete(key: string)
      modifies this
      ensures entries == old(entries) - {key}
    {
      entries := entries - {key};
    }
  }

  /** What one `cacheable` call returns, whether it called the wrapped method, and the cache afterwards. */
  datatype CachedCall = CachedCall(result: Value, called: bool, entries: map<string, Value>)

  /** Only `key` may differ between two caches. */
  ghost predicate OthersKept(before: map<string, Value>, after: map<string, Value>, key: string)
  {
    forall k :: k != key ==> (k in after <==> k in before) && (k in before ==> after[k] == before[k])
  }

  /**
   * One `cacheable` call on the cache `entries` at `key`, where the wrapped
   * method would compute `computed`: a stored value other than None is
   * returned as it is; otherwise the method is called and its result stored
   * and returned.
   */
  function CacheableOf(entries: map<string, Value>, key: string, computed: Value): (o: CachedCall)
    ensures o.called <==> GetOr(entries, key, NoneV) == NoneV
    ensures o.called ==> o.result == computed
    ensures !o.called ==> o.entries == entries
    ensures GetOr(o.entries, key, NoneV) == o.result
    ensures OthersKept(entries, o.entries, key)
  {
    var res := GetOr(entries, key, NoneV);
    if res == NoneV then CachedCall(computed, true, entries[key := computed])
    else CachedCall(res, false, entries)
  }

  /** The decorated method of `cacheable(cache_key)` called on an object with attributes `self`. */
  method Cacheable(cache: Cache, cacheKey: string, self: map<string, string>, func: map<string, string> -> Value)
    returns (r: Result<Value, FormatError>, called: bool)
    modifies cache
    ensures var key := FormatKey(cacheKey, self);
      if key.Err? then r == Err(key.error) && !called && cache.entries == old(cache.entries)
      else
        var o := CacheableOf(old(cache.entries), key.value, func(self));
        r == Ok(o.result) && called == o.called && cache.entries == o.entries
  {
    var key := FormatKey(cacheKey, self);
    if key.Err? {
      return Err(key.error), false;
    }
    var res := cache.Get(key.value);
    called := false;
    if res == NoneV {
      res := func(self);
      called := true;
      cache.Set(key.value, res);
    }
    return Ok(res), called;
  }

  /** The decorated method of `stales_cache(cache_key)`: drops the entry, then calls through. */
  method StalesCache(cache: Cache, cacheKey: string, self: map<string, string>,
                     func: (map<string, string>, seq<Value>, map<string, Value>) -> Value,
                     args: seq<Value>, kw: map<string, Value>)
    returns (r: Result<Value, FormatError>)
    modifies cache
    ensures var key := FormatKey(cacheKey, self);
      if key.Err? then r == Err(key.error) && cache.entries == old(cache.entries)
      else r == Ok(func(self, args, kw)) && cache.entries == old(cache.entries) - {key.value}
  {
    var key := FormatKey(cacheKey, self);
    if key.Err? {
      return Err(key.error);
    }
    cache.Delete(key.value);
    return Ok(func(self, args, kw));
  }

  /** A second call finds what the first stored, unless that was None, and does not call the method again. */
  lemma SecondCallHits(entries: map<string, Value>, key: string, first: Value, second: Value)
    ensures var o1 := CacheableOf(entries, key, first);
      var o2 := CacheableOf(o1.entries, key, second);
      (o1.result != NoneV ==> !o2.called && o2.result == o1.result && o2.entries == o1.entries)
      && (o1.result == NoneV ==> o2.called && o2.result == second)
  {
  }

  /** After `stales_cache` dropped the entry, the next `cacheable` call recomputes. */
  lemma StaledEntryRecomputed(entries: map<string, Value>, key: string, computed: Value)
    ensures var o := CacheableOf(entries - {key}, key, computed);
      o.called && o.result == computed && GetOr(o.entries, key, NoneV) == computed
  {
  }
}
