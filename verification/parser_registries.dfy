/**
  The extension-to-parser-class tables. `cfgengine/parser.py` and
  `cfgengine/parser_registry.py` each keep one as a class attribute with the
  same `register_parser`; they differ in the lookup: the first hands back the
  class (`get_parser_class`), the second an instance of it (`get_parser`).
  The table is an explicit value here rather than process-global state.
 */
module ParserRegistries {
  import opened Results

  /** A registered object, as far as the lookup can see it: its name and its
      truth value (a class is truthy; `None` or an object with a false
      `__bool__` registered by hand is not). */
  datatype ParserClass = ParserClass(name: string, truthy: bool)

  /** What `get_parser` returns: a fresh instance of the registered class. */
  datatype ParserInstance = Instance(cls: ParserClass)

  /** The `ValueError` raised for an extension without a (truthy) entry. */
  datatype RegistryError = NoParserFor(extension: string)

  /** Extensions are compared as exact strings. */
  type Registry = map<string, ParserClass>

  /** `register_parser(extension, parser_clz)`: binds or rebinds one extension. */
  function RegisterParser(reg: Registry, extension: string, cls: ParserClass): (r: Registry)
    ensures extension in r && r[extension] == cls
    ensures r.Keys == reg.Keys + {extension}
    ensures forall e :: e in reg && e != extension ==> r[e] == reg[e]
  {
    reg[extension := cls]
  }

  /** `get_parser_class(extension)` of `cfgengine/parser.py`. */
  function GetParserClass(reg: Registry, extension: string): (r: Result<ParserClass, RegistryError>)
    ensures r.Ok? <==> extension in reg && reg[extension].truthy
    ensures r.Ok? ==> r.value == reg[extension]
    ensures r.Err? ==> r.error == NoParserFor(extension)
  {
    if extension in reg && reg[extension].truthy then Ok(reg[extension])
    else Err(NoParserFor(extension))
  }

  /** `get_parser(extension)` of `cfgengine/parser_registry.py`: the same lookup,
      but the class is called and the instance returned. */
  function GetParser(reg: Registry, extension: string): (r: Result<ParserInstance, RegistryError>)
    ensures r.Ok? <==> extension in reg && reg[extension].truthy
    ensures r.Ok? ==> r.value == Instance(reg[extension])
    ensures r.Err? ==> r.error == NoParserFor(extension)
  {
    match GetParserClass(reg, extension)
    case Ok(cls) => Ok(Instance(cls))
    case Err(e) => Err(e)
  }

  /** `register_cfg_parser(extension)(parser_cls)`: registers the class and
      hands it back unchanged. */
  function RegisterCfgParser(reg: Registry, extension: string, cls: ParserClass): (r: (Registry, ParserClass))
    ensures r.1 == cls
    ensures cls.truthy ==> GetParserClass(r.0, extension) == Ok(cls) && GetParser(r.0, extension) == Ok(Instance(cls))
    ensures forall e :: e != extension ==> GetParserClass(r.0, e) == GetParserClass(reg, e)
  {
    (RegisterParser(reg, extension, cls), cls)
  }

  /** A lookup right after registering a class finds that class; the second
      table's lookup finds an instance of it rather than the class. */
  lemma GetAfterRegister(reg: Registry, extension: string, cls: ParserClass)
    requires cls.truthy
    ensures GetParserClass(RegisterParser(reg, extension, cls), extension) == Ok(cls)
    ensures GetParser(RegisterParser(reg, extension, cls), extension) == Ok(Instance(cls))
  {
  }

  /** Registering the same extension twice keeps only the second class. */
  lemma LastRegistrationWins(reg: Registry, extension: string, first: ParserClass, second: ParserClass)
    ensures RegisterParser(RegisterParser(reg, extension, first), extension, second)
         == RegisterParser(reg, extension, second)
  {
  }

  /** Registering one extension leaves every other lookup as it was. */
  lemma RegisterLeavesOthers(reg: Registry, extension: string, cls: ParserClass, other: string)
    requires other != extension
    ensures GetParserClass(RegisterParser(reg, extension, cls), other) == GetParserClass(reg, other)
    ensures GetParser(RegisterParser(reg, extension, cls), other) == GetParser(reg, other)
  {
  }

  /** "ini" and "INI" are separate entries: registering one does not make the
      other resolvable. */
  lemma CaseSensitive(cls: ParserClass)
    requires cls.truthy
    ensures GetParserClass(RegisterParser(map[], "ini", cls), "ini") == Ok(cls)
    ensures GetParserClass(RegisterParser(map[], "ini", cls), "INI") == Err(NoParserFor("INI"))
  {
  }

  /** An empty table resolves nothing. */
  lemma EmptyResolvesNothing(extension: string)
    ensures GetParserClass(map[], extension) == Err(NoParserFor(extension))
    ensures GetParser(map[], extension) == Err(NoParserFor(extension))
  {
  }
}
