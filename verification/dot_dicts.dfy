/**
  `DotDict`: the dict the engine hands back, readable and writable through
  attributes. `cfgengine/parser.py` and `cfgengine/utils.py` each define it,
  identically except for the word each copy puts before "object" in its
  `AttributeError` message; that word is the `owner` parameter here.
 */
module DotDicts {
  import opened Results
  import opened OrderedDicts
  import opened ConfigValues
  import opened Environments
  import opened TemplateParser

  /** A value held by a `DotDict`: a wrapped dict, or any other value as it is
      (lists keep plain dicts inside them, and attribute assignment stores
      whatever it is given, plain dicts included). */
  datatype Entry =
    | Plain(value: ConfigValue)
    | Nested(dict: DotDict)

  datatype DotDict = DotDict(entries: Dict<Entry>)

  /** The word each definition puts before "object" in its `AttributeError`
      message: the class name in `cfgengine/parser.py`, "config" in
      `cfgengine/utils.py`. */
  const ParserOwner: string := "DotDict"
  const UtilsOwner: string := "config"

  /** The `AttributeError` raised by a failed attribute read or delete. */
  datatype AttrError = AttributeError(message: string)

  function NoAttribute(owner: string, name: string): AttrError
  {
    AttrError.AttributeError(owner + " object has no attribute '" + name + "'")
  }

  /** One value as the constructor leaves it: a dict becomes a `DotDict`,
      wrapped in turn; anything else, lists included, is kept. */
  function WrapValue(v: ConfigValue): (e: Entry)
    ensures e.Nested? <==> v.Map?
    ensures !v.Map? ==> e == Plain(v)
    ensures v.Map? ==> |e.dict.entries| == |v.entries| && Keys(e.dict.entries) == Keys(v.entries)
    decreases v
  {
    match v
    case Map(entries) => Nested(DotDict(WrapEntries(entries)))
    case _ => Plain(v)
  }

  /** The constructor's loop over `self.items()`: same keys, same order, each
      value wrapped. */
  function WrapEntries(d: Dict<ConfigValue>): (r: Dict<Entry>)
    ensures |r| == |d|
    ensures forall i :: 0 <= i < |d| ==> r[i] == WrapEntry(d[i])
    ensures Keys(r) == Keys(d)
    decreases d
  {
    if |d| == 0 then []
    else
      var r := [WrapEntry(d[0])] + WrapEntries(d[1..]);
      KeysAgree(r, d);
      r
  }

  function WrapEntry(entry: (string, ConfigValue)): (r: (string, Entry))
    ensures r.0 == entry.0 && r.1 == WrapValue(entry.1)
    decreases entry
  {
    (entry.0, WrapValue(entry.1))
  }

  /** `DotDict(dictionary)`. */
  function Wrap(d: Dict<ConfigValue>): (r: DotDict)
    ensures Keys(r.entries) == Keys(d)
  {
    DotDict(WrapEntries(d))
  }

  /** The plain dict a `DotDict` compares equal to. */
  function UnwrapEntry(e: Entry): ConfigValue
    decreases e
  {
    match e
    case Plain(v) => v
    case Nested(dd) => Map(UnwrapEntries(dd.entries))
  }

  function UnwrapEntries(d: Dict<Entry>): Dict<ConfigValue>
    decreases d
  {
    if |d| == 0 then [] else [UnwrapPair(d[0])] + UnwrapEntries(d[1..])
  }

  function UnwrapPair(entry: (string, Entry)): (string, ConfigValue)
    decreases entry
  {
    (entry.0, UnwrapEntry(entry.1))
  }

  /** Every dict reachable through dict values is a `DotDict`; a plain dict
      survives only inside a list. */
  predicate FullyWrapped(e: Entry)
    decreases e
  {
    match e
    case Plain(v) => !v.Map?
    case Nested(dd) => forall i :: 0 <= i < |dd.entries| ==> FullyWrappedPair(dd.entries[i])
  }

  predicate FullyWrappedPair(entry: (string, Entry))
    decreases entry
  {
    FullyWrapped(entry.1)
  }

  /** Wrapping loses nothing: unwrapping gives back the original tree. */
  lemma {:induction false} UnwrapWrap(v: ConfigValue)
    ensures UnwrapEntry(WrapValue(v)) == v
    decreases v
  {
    match v
    case Map(entries) => UnwrapWrapEntries(entries);
    case _ =>
  }

  lemma {:induction false} UnwrapWrapEntries(d: Dict<ConfigValue>)
    ensures UnwrapEntries(WrapEntries(d)) == d
    decreases d
  {
    if |d| > 0 {
      UnwrapWrapPair(d[0]);
      UnwrapWrapEntries(d[1..]);
      assert WrapEntries(d) == [WrapEntry(d[0])] + WrapEntries(d[1..]);
      assert UnwrapEntries(WrapEntries(d)) == [UnwrapPair(WrapEntry(d[0]))] + UnwrapEntries(WrapEntries(d[1..]));
      assert d == [d[0]] + d[1..];
    }
  }

  lemma {:induction false} UnwrapWrapPair(entry: (string, ConfigValue))
    ensures UnwrapPair(WrapEntry(entry)) == entry
    decreases entry
  {
    UnwrapWrap(entry.1);
  }

  /** After construction every dict value, at any depth through dict values,
      is a `DotDict`. */
  lemma {:induction false} WrapIsFullyWrapped(v: ConfigValue)
    ensures FullyWrapped(WrapValue(v))
    decreases v
  {
    match v
    case Map(entries) =>
      var r := WrapEntries(entries);
      forall i | 0 <= i < |r| ensures FullyWrappedPair(r[i]) {
        WrapIsFullyWrapped(entries[i].1);
      }
    case _ =>
  }

  /** A lookup in the wrapped dict finds the wrapped value of a lookup in the
      original. */
  lemma {:induction false} WrapLookup(d: Dict<ConfigValue>, k: string)
    ensures Get(WrapEntries(d), k).Some? <==> Get(d, k).Some?
    ensures Get(d, k).Some? ==> Get(WrapEntries(d), k) == Some(WrapValue(Get(d, k).value))
    decreases d
  {
    if |d| > 0 && d[0].0 != k {
      WrapLookup(d[1..], k);
      assert WrapEntries(d)[1..] == WrapEntries(d[1..]);
    }
  }

  /** The public methods of `dict`. Ordinary attribute lookup finds these
      first, so `__getattr__` never runs for them and a key of the same name
      cannot be read as an attribute. */
  const DictMethods: set<string> :=
    {"clear", "copy", "fromkeys", "get", "items", "keys", "pop", "popitem", "setdefault", "update", "values"}

  /** What reading `d.name` yields: the stored value, or a bound dict method. */
  datatype Attribute =
    | Item(entry: Entry)
    | BoundMethod(methodName: string)

  /** `__getattr__(name)`: the value under `name`, or `AttributeError`. */
  function GetAttr(d: DotDict, name: string, owner: string): (r: Result<Entry, AttrError>)
    ensures r.Ok? <==> name in Keys(d.entries)
    ensures r.Ok? ==> Get(d.entries, name) == Some(r.value)
    ensures r.Err? ==> r.error == NoAttribute(owner, name)
  {
    match Get(d.entries, name)
    case Some(e) => Ok(e)
    case None => Err(NoAttribute(owner, name))
  }

  /** `d.name` as Python evaluates it: the dict's own methods first, then
      `__getattr__`. */
  function ReadAttribute(d: DotDict, name: string, owner: string): (r: Result<Attribute, AttrError>)
    ensures name in DictMethods ==> r == Ok(BoundMethod(name))
    ensures name !in DictMethods ==>
              (r.Ok? <==> name in Keys(d.entries))
              && (r.Ok? ==> r.value.Item? && Get(d.entries, name) == Some(r.value.entry))
              && (r.Err? ==> r.error == NoAttribute(owner, name))
  {
    if name in DictMethods then Ok(BoundMethod(name))
    else
      match GetAttr(d, name, owner)
      case Ok(e) => Ok(Item(e))
      case Err(err) => Err(err)
  }

  /** `__setattr__(name, value)`: `self[name] = value`, stored as given. */
  function SetAttr(d: DotDict, name: string, value: Entry): (r: DotDict)
    ensures Keys(r.entries) == if name in Keys(d.entries) then Keys(d.entries) else Keys(d.entries) + [name]
    ensures Distinct(Keys(d.entries)) ==> Distinct(Keys(r.entries))
  {
    DotDict(Set(d.entries, name, value))
  }

  /** Writing an attribute and reading it back through `__getattr__` gives the
      value written; every other name reads as before. */
  lemma SetAttrThenGet(d: DotDict, name: string, value: Entry, other: string, owner: string)
    requires other != name
    ensures GetAttr(SetAttr(d, name, value), name, owner) == Ok(value)
    ensures GetAttr(SetAttr(d, name, value), other, owner) == GetAttr(d, other, owner)
  {
    SetLookup(d.entries, name, value);
  }

  /** A key named like a dict method can be written, and is really stored,
      but reading the attribute back gives the method, not the value. */
  lemma MethodNameShadowsKey(d: DotDict, value: Entry, owner: string)
    ensures GetAttr(SetAttr(d, "items", value), "items", owner) == Ok(value)
    ensures ReadAttribute(SetAttr(d, "items", value), "items", owner) == Ok(BoundMethod("items"))
  {
    SetLookup(d.entries, "items", value);
  }

  /** `__delattr__(name)`: removes the key when present, otherwise raises
      `AttributeError` and leaves the dict as it was. */
  function DelAttr(d: DotDict, name: string, owner: string): (r: Result<DotDict, AttrError>)
    ensures r.Ok? <==> name in Keys(d.entries)
    ensures r.Ok? ==> name !in Keys(r.value.entries)
    ensures r.Ok? ==> forall k :: k in Keys(d.entries) && k != name ==> k in Keys(r.value.entries)
    ensures r.Err? ==> r.error == NoAttribute(owner, name)
  {
    if name in Keys(d.entries) then Ok(DotDict(Remove(d.entries, name)))
    else Err(NoAttribute(owner, name))
  }

  /** Deleting a present attribute removes exactly its entry, keeping the
      order of the others, and every other name reads as before. */
  lemma {:induction false} DelAttrRemovesOnlyThat(d: DotDict, i: int, other: string, owner: string)
    requires Distinct(Keys(d.entries))
    requires 0 <= i < |d.entries|
    requires other != d.entries[i].0
    ensures DelAttr(d, d.entries[i].0, owner) == Ok(DotDict(d.entries[..i] + d.entries[i + 1..]))
    ensures GetAttr(DelAttr(d, d.entries[i].0, owner).value, other, owner) == GetAttr(d, other, owner)
  {
    var name := d.entries[i].0;
    assert name in Keys(d.entries) by { assert Keys(d.entries)[i] == name; }
    RemoveEntry(d.entries, i);
    RemoveLookup(d.entries, name);
  }

  /** `d.outer.inner` on a freshly built `DotDict`: when the config holds a
      dict under `outer` and that dict holds `v` under `inner` (neither name a
      dict method), the chained read yields `v` wrapped. */
  lemma {:induction false} NestedAttributeRead(config: Dict<ConfigValue>, outer: string, inner: string,
                                               nested: Dict<ConfigValue>, v: ConfigValue, owner: string)
    requires outer !in DictMethods && inner !in DictMethods
    requires Get(config, outer) == Some(Map(nested))
    requires Get(nested, inner) == Some(v)
    ensures ReadAttribute(Wrap(config), outer, owner) == Ok(Item(Nested(Wrap(nested))))
    ensures ReadAttribute(Wrap(nested), inner, owner) == Ok(Item(WrapValue(v)))
  {
    WrapLookup(config, outer);
    WrapLookup(nested, inner);
  }

  /** For a dict, every key of a successful `parse_config` holds the parse of
      the original value under that key. */
  lemma {:induction false} ParsedEntries(env: Environment, config: Dict<ConfigValue>)
    requires ParseConfig(env, config).Ok?
    ensures Distinct(Keys(config)) ==>
              && Keys(ParseConfig(env, config).value) == Keys(config)
              && forall i :: 0 <= i < |config| ==>
                   && ParseValue(env, config[i].1, config[i].0).Ok?
                   && Get(ParseConfig(env, config).value, config[i].0)
                      == Some(ParseValue(env, config[i].1, config[i].0).value)
  {
    if Distinct(Keys(config)) {
      var out := ParseConfig(env, config).value;
      ParseConfigEntries(env, config);
      KeysAgree(out, config);
      forall i | 0 <= i < |config|
        ensures Get(out, config[i].0) == Some(out[i].1)
      {
        GetEntry(out, i);
      }
    }
  }

  /** `CfgParser.parse` once the file is loaded: every string leaf rendered by
      `Parser.parse_config`, then the result wrapped. */
  function ParseToDotDict(env: Environment, config: Dict<ConfigValue>): (r: Result<DotDict, ParseError>)
    ensures r.Ok? <==> ParseConfig(env, config).Ok?
    ensures r.Ok? && Distinct(Keys(config)) ==> Keys(r.value.entries) == Keys(config)
    ensures r.Ok? && Distinct(Keys(config)) ==>
              forall i :: 0 <= i < |config| ==>
                && ParseValue(env, config[i].1, config[i].0).Ok?
                && Get(r.value.entries, config[i].0) == Some(WrapValue(ParseValue(env, config[i].1, config[i].0).value))
  {
    match ParseConfig(env, config)
    case Ok(out) =>
      ParsedEntries(env, config);
      forall k { WrapLookup(out, k); }
      Ok(Wrap(out))
    case Err(e) => Err(e)
  }
}
