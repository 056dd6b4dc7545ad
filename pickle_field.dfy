/**
 * `PickleField`: a model field whose value is stored in the database as
 * base 64 text of its pickle, under the attribute `<name>_pickled`, and read
 * through a `PickleDescriptor` that unpickles the stored text on first
 * access and keeps the result in the instance's attribute dictionary.
 */
module PickleFields {
  import opened Framework
  import Base64

  /**
   * The pickle module as the field uses it: `dumps` at the highest
   * protocol, and `loads`, which may fail.
   */
  datatype Pickler = Pickler(dumps: Value -> seq<Base64.Byte>, loads: seq<Base64.Byte> -> Option<Value>)

  /** `loads` gives back whatever `dumps` wrote. */
  ghost predicate Faithful(p: Pickler)
  {
    forall v :: p.loads(p.dumps(v)) == Some(v)
  }

  /** What the field and its descriptor raise. */
  datatype FieldError =
    | ValueError(message: string)
    | AttributeError(name: string)
    | TypeError(decodeError: Base64.DecodeError)
    | NotAString(name: string)
    | UnpicklingError

  const NoComparisons := "Can't make comparisons against pickled data."

  /** `get_attname`: the attribute the pickled text is kept under. */
  function AttnameOf(name: string): (attname: string)
    ensures attname != name
    ensures |attname| == |name| + 8 && attname[..|name|] == name && attname[|name|..] == "_pickled"
  {
    name + "_pickled"
  }

  /** Distinct fields keep their pickled text under distinct attributes. */
  lemma AttnameInjective(a: string, b: string)
    requires AttnameOf(a) == AttnameOf(b)
    ensures a == b
  {
    assert |a| == |b|;
    assert a == AttnameOf(a)[..|a|];
  }

  /** `get_db_prep_lookup`: every lookup is refused, whatever its type and value. */
  function GetDbPrepLookup(lookupType: string, value: Value): (r: Result<Value, FieldError>)
    ensures r.Err? && r.error == ValueError(NoComparisons)
  {
    Err(ValueError(NoComparisons))
  }

  /** `unpickle(b64decode(raw))` of the attribute `attname`. */
  function LoadRaw(dict: map<string, Value>, attname: string, codec: Pickler): (r: Result<Value, FieldError>)
    ensures attname !in dict ==> r == Err(AttributeError(attname))
    ensures r.Ok? ==> (attname in dict && dict[attname].StrV?
      && Base64.Decode(dict[attname].s).Ok?
      && codec.loads(Base64.Decode(dict[attname].s).value) == Some(r.value))
  {
    if attname !in dict then Err(AttributeError(attname))
    else if !dict[attname].StrV? then Err(NotAString(attname))
    else
      var data := Base64.Decode(dict[attname].s);
      if data.Err? then Err(TypeError(data.error))
      else
        var value := codec.loads(data.value);
        if value.None? then Err(UnpicklingError) else Ok(value.value)
  }

  /**
   * `PickleDescriptor.__get__` on an instance with attribute dictionary
   * `dict`: the cached value when there is one, else the unpickled raw
   * attribute, which is then cached. Gives the value (or error) and the
   * dictionary afterwards.
   */
  function GetOf(dict: map<string, Value>, name: string, attname: string, codec: Pickler)
    : (r: (Result<Value, FieldError>, map<string, Value>))
    ensures name in dict ==> r == (Ok(dict[name]), dict)
    ensures r.0.Err? ==> r.1 == dict
    ensures r.0.Ok? ==> name in r.1 && r.1[name] == r.0.value && r.1 == dict[name := r.0.value]
    ensures name !in dict ==> r.0 == LoadRaw(dict, attname, codec)
  {
    if name !in dict then
      var value := LoadRaw(dict, attname, codec);
      if value.Err? then (value, dict) else (value, dict[name := value.value])
    else (Ok(dict[name]), dict)
  }

  /** `PickleDescriptor.__set__`: caches the value and stores its pickle as base 64 text. */
  function SetOf(dict: map<string, Value>, name: string, attname: string, codec: Pickler, value: Value)
    : (r: map<string, Value>)
    ensures name != attname ==> name in r && r[name] == value
    ensures attname in r && r[attname] == StrV(Base64.Encode(codec.dumps(value)))
    ensures forall k :: k != name && k != attname ==> (k in r <==> k in dict) && (k in dict ==> r[k] == dict[k])
  {
    dict[name := value][attname := StrV(Base64.Encode(codec.dumps(value)))]
  }

  /** After a successful read the value is cached: a second read returns it without decoding. */
  lemma SecondGetCached(dict: map<string, Value>, name: string, attname: string, codec: Pickler)
    ensures var first := GetOf(dict, name, attname, codec);
      first.0.Ok? ==> GetOf(first.1, name, attname, codec) == first
  {
  }

  /** After `__set__(v)`, `__get__` returns exactly `v`. */
  lemma GetAfterSet(dict: map<string, Value>, name: string, attname: string, codec: Pickler, value: Value)
    requires name != attname
    ensures var d := SetOf(dict, name, attname, codec, value);
      GetOf(d, name, attname, codec) == (Ok(value), d)
  {
  }

  /**
   * The stored text alone brings the value back: an instance that holds
   * only the raw attribute written by `__set__(v)` (as one loaded from the
   * database does) reads `v` on its first access.
   */
  lemma RawReadsBack(dict: map<string, Value>, name: string, attname: string, codec: Pickler, value: Value)
    requires name != attname && Faithful(codec)
    ensures var d := SetOf(dict, name, attname, codec, value) - {name};
      GetOf(d, name, attname, codec) == (Ok(value), d[name := value])
  {
    var bytes := codec.dumps(value);
    Base64.RoundTrip(bytes);
    assert codec.loads(bytes) == Some(value);
  }

  /** A model instance: its attribute dictionary (`instance.__dict__`). */
  class ModelInstance {
    var dict: map<string, Value>

    constructor (dict: map<string, Value>)
      ensures this.dict == dict
    {
      this.dict := dict;
    }
  }

  /** A model class: its fields (`_meta.fields`) and the descriptors set on it. */
  class ModelClass {
    var fields: seq<PickleField>
    var descriptors: map<string, PickleDescriptor>

    constructor ()
      ensures fields == [] && descriptors == map[]
    {
      fields := [];
      descriptors := map[];
    }
  }

  /** What `__get__` returns: the descriptor itself (read on the class) or the field's value. */
  datatype Got = Itself(descriptor: PickleDescriptor) | Val(value: Value)

  /** `PickleField`: its name and attribute name, set when it is added to a model class. */
  class PickleField {
    var name: string
    var attname: string
    const codec: Pickler

    constructor (codec: Pickler)
      ensures this.codec == codec && name == "" && attname == ""
    {
      this.codec := codec;
      name := "";
      attname := "";
    }

    /** `get_attname` */
    function GetAttname(): (a: string)
      reads this
      ensures a == AttnameOf(name)
    {
      AttnameOf(name)
    }

    /**
     * `contribute_to_class`: names the field and its attribute, adds it to
     * the class's fields, and installs a descriptor for it under its name.
     */
    method ContributeToClass(cls: ModelClass, name: string) returns (descriptor: PickleDescriptor)
      modifies this, cls
      ensures this.name == name && attname == AttnameOf(name)
      ensures cls.fields == old(cls.fields) + [this]
      ensures fresh(descriptor) && descriptor.field == this
      ensures cls.descriptors == old(cls.descriptors)[name := descriptor]
    {
      this.name := name;
      attname := GetAttname();
      cls.fields := cls.fields + [this];
      descriptor := new PickleDescriptor(this);
      cls.descriptors := cls.descriptors[name := descriptor];
    }
  }

  /** `PickleDescriptor`: the attribute a `PickleField` installs on its model class. */
  class PickleDescriptor {
    const field: PickleField

    constructor (field: PickleField)
      ensures this.field == field
    {
      this.field := field;
    }

    /** `__get__(instance, owner)` */
    method Get(instance: ModelInstance?) returns (r: Result<Got, FieldError>)
      modifies instance
      ensures instance == null ==> r == Ok(Itself(this))
      ensures instance != null ==>
        var (value, dict) := GetOf(old(instance.dict), field.name, field.attname, field.codec);
        instance.dict == dict && r == (if value.Ok? then Ok(Val(value.value)) else Err(value.error))
    {
      if instance == null {
        return Ok(Itself(this));
      }
      if field.name !in instance.dict {
        var value := LoadRaw(instance.dict, field.attname, field.codec);
        if value.Err? {
          return Err(value.error);
        }
        instance.dict := instance.dict[field.name := value.value];
      }
      return Ok(Val(instance.dict[field.name]));
    }

    /** `__set__(instance, value)` */
    method Set(instance: ModelInstance, value: Value)
      modifies instance
      ensures instance.dict == SetOf(old(instance.dict), field.name, field.attname, field.codec, value)
    {
      instance.dict := instance.dict[field.name := value];
      var pickled := Base64.Encode(field.codec.dumps(value));
      instance.dict := instance.dict[field.attname := StrV(pickled)];
    }
  }
}
