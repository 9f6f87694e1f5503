# cfgengine template-resolution engine, modelled in Dafny

cfgengine loads a JSON or INI configuration. It renders every string leaf of
the configuration as a Jinja2 template and hands the result back as a
`DotDict`, which allows attribute-style access. This project models the core
of that engine as pure functions over immutable data and proves what the code
promises about them. The core is in `cfgengine/parser.py`, with the duplicates
in `cfgengine/parser_registry.py` and `cfgengine/utils.py`.

Modules, one per concept:

- `Results` holds `Option` and `Result`.
- `OrderedDicts` models Python's `dict` as a sequence of key/value entries in
  insertion order. Assigning to an existing key keeps its place. Assigning to a
  new key appends. Deleting a key keeps the order of the others.
- `ConfigValues` is the configuration tree: a string, another scalar, a list or
  a dict.
- `TemplateAst` is the part of a Jinja2 parse tree the extractor looks at, plus
  `FunctionCallExtractor.extract`. A reference predicate (`Reported`) defines
  "some node anywhere calls global `n` by its bare name", and the extractor is
  proved to report exactly those names.
- `Environments` covers:
  - the Jinja2 environment: the `globals` and `filters` maps, with Jinja2's
    parser and renderer as uninterpreted, fallible function fields;
  - the registration decorators;
  - `returns_native_non_string`;
  - the built-ins `import_py_obj` and `env_var`.
- `TemplateParser` is the `Parser` class (`parse_config`, `parse_value`,
  `parse_string`, `parse_list`), its conflict policy, and its error messages.
- `ParserRegistries` holds both extension-to-class tables: `get_parser_class`
  in `parser.py` and `get_parser` in `parser_registry.py`. It also has
  `register_cfg_parser`. The table is passed as a value.
- `DotDicts` is `DotDict`: recursive wrapping at construction, and attribute
  read, write and delete. The two copies of the class differ only in the word
  each puts before "object" in its `AttributeError` message, which is the
  `owner` parameter.
- `Scenarios` works concrete templates through the model: nested calls, method
  calls, one native function called twice, and two native functions.

The extractor's walk descends into every child of every node, including a
call's callee and its arguments (`cfgengine/parser.py:134-135`). So
`{{ outer(inner()) }}` reports both names (see `Scenarios.NestedCallIsReported`).

## Model

| member | source | states |
|---|---|---|
| `TemplateAst.CallNames` | cfgengine/parser.py:125-135 | The walk appends only names bound in the globals. |
| `TemplateAst.Extract` | cfgengine/parser.py:117-138 | The keys are distinct. A name is a key exactly when it is a global and some Call node anywhere in the tree calls it by bare name, inside other calls' arguments and in branches that never render included. The keys come in the order the walk first reaches a call of each. Each key holds one entry per such call. |
| `TemplateAst.ListedIsReported` | cfgengine/parser.py:125-133 | Every name the walk appends is a global that some node in the tree calls by bare name. |
| `TemplateAst.OccurringCallIsListed` | cfgengine/parser.py:125-135 | Every bare-name call of a global, at any depth of the tree, is appended by the walk. |
| `TemplateAst.Group` | cfgengine/parser.py:123-133 | The `defaultdict(list)` has one key per distinct appended name, in the order the names were first appended, and under each key as many copies as the name was appended. |
| `TemplateParser.NativeFunctions` | cfgengine/parser.py:175-179 | It keeps exactly the names whose global is tagged `returns_native`, in the order they are given: the result is a subsequence of the input. For distinct input names, each kept name appears once. |
| `TemplateParser.Reraise` | cfgengine/parser.py:189-190 | Only `UndefinedError` becomes the `ValueError` carrying the key and the original message. Any other exception passes through unchanged, and none becomes a `ParserError`. |
| `TemplateParser.ParseString` | cfgengine/parser.py:168-190 | A value is only ever what the renderer produced for a template that parsed. A `ParserError` names the key and at least two native-tagged globals. A `ValueError` names the key. |
| `TemplateParser.ParseValue` | cfgengine/parser.py:157-166 | A non-string scalar is returned as it is. A parsed list is a list of the same length, and a parsed dict is a dict with distinct keys. |
| `TemplateParser.ParseList` | cfgengine/parser.py:192-194 | A successful `parse_list` has as many elements as its input. |
| `TemplateParser.ParseConfig` | cfgengine/parser.py:150-155 | A successful `parse_config` returns a dict with distinct keys, and exactly the input's keys. |
| `TemplateParser.ParseStringOutcome` | cfgengine/parser.py:168-190 | For a template that parses, `ParserError` is raised exactly when it calls two different native-returning globals; the error names the key and lists each such global once, in the order the extractor reports them (the walk's visiting order), and nothing is rendered. Otherwise the result is the renderer's, with the same exception mapping. A parse failure gets the same mapping. |
| `TemplateParser.ParseListOutcome` | cfgengine/parser.py:192-194 | `parse_list` succeeds exactly when every element parses under `key[i]`. Otherwise it fails with the error of the first element that fails. |
| `TemplateParser.ParseListElements` | cfgengine/parser.py:192-194 | A successful `parse_list` keeps the length. Element `i` of the result is element `i` parsed under `key[i]`. |
| `TemplateParser.ParseConfigOutcome` | cfgengine/parser.py:150-155 | `parse_config` succeeds exactly when every value parses under its own key. Otherwise it fails with the error of the first entry that fails. |
| `TemplateParser.ParseConfigEntries` | cfgengine/parser.py:150-155 | A successful `parse_config` keeps exactly the input's keys in the input's order. Each value is `parse_value` of the original under its own key; a nested dict's entries are not prefixed by the parent key. |
| `TemplateParser.NoStringsUnchanged` | cfgengine/parser.py:157-166 | A tree with no string leaf comes back equal to itself: dicts stay dicts and lists stay lists, with the same contents. |
| `TemplateParser.ShapePreserved` | cfgengine/parser.py:157-166 | A successful parse keeps the outline. Dicts keep their keys in order and lists keep their length. Non-string scalars are unchanged. Only string leaves may become other values. |
| `TemplateParser.DecimalRoundTrip` | cfgengine/parser.py:194 | The index text inside `key[i]` reads back as `i`. |
| `TemplateParser.IndexKeysDistinct` | cfgengine/parser.py:194 | Different list positions get different error keys. |
| `TemplateParser.MessageRunsWordsTogether` | cfgengine/parser.py:182-186 | In the conflict message as written, "returning" and "functions" run together for every key and function list. |
| `TemplateParser.ConflictMessageNames` | cfgengine/parser.py:182-186 | The corrected conflict message reads "non-string-returning functions cannot be used together", and contains the key and every conflicting function name. |
| `TemplateParser.ErrorMessage` | cfgengine/parser.py:182-190 | The conflict message, as the source builds it, contains the key and every conflicting function name, and runs "returning" and "functions" together. The `ValueError` message contains the key and Jinja2's message. An uncaught exception keeps its own message. |
| `Environments.IsNative` | cfgengine/parser.py:178 | A name not bound in the globals is never native, as `getattr(None, "returns_native", False)` is false. |
| `Environments.ReturnsNativeNonString` | cfgengine/parser.py:235-240 | It returns the same function, now tagged native. |
| `Environments.RegisterGlobalFunction` | cfgengine/parser.py:197-207 | It binds the function under the explicit name, or under `__name__` when the name is `None`, and returns the function. Every other global, all filters, and the parser and renderer are unchanged. |
| `Environments.RegisterFilter` | cfgengine/parser.py:210-220 | The same binding, in the filter namespace. The globals are untouched. |
| `Environments.LastGlobalRegistrationWins` | cfgengine/parser.py:202-205 | Registering the same name twice leaves only the second function. |
| `Environments.WithBuiltins` | cfgengine/parser.py:243-265 | After the module's own decorators run, `import_py_obj` is a native-tagged global and `env_var` a global that is not native. Other globals, the filters, and the parser and renderer are unchanged. |
| `Environments.EnvVar` | cfgengine/parser.py:260-265 | It returns the variable's value when set, and the default otherwise. |
| `Environments.LastDot` | cfgengine/parser.py:253 | It finds the position of the last `.`; no dot follows it. It finds none exactly when the path has no dot. |
| `Environments.SplitDottedPath` | cfgengine/parser.py:250-253 | A path without a dot names a whole module. Otherwise module, `.` and attribute concatenate back to the path, and the attribute holds no dot. |
| `Environments.CatchLookup` | cfgengine/parser.py:256-257 | `ImportError` and `AttributeError` become the `ValueError` naming the path and carrying the original message. Any other exception passes through unchanged, and a value is returned as it is. |
| `Environments.ImportPyObject` | cfgengine/parser.py:245-257 | A path without a dot imports the module. A dotted path succeeds exactly when the module before the last dot imports and has the attribute after it, and then yields that attribute. Otherwise the failure of the step that failed goes through the `except` clause, so only `ImportError` and `AttributeError` become the `ValueError` naming the path. |
| `ParserRegistries.RegisterParser` | cfgengine/parser.py:61-64 | It binds the extension to the class and leaves every other extension's entry unchanged. |
| `ParserRegistries.GetParserClass` | cfgengine/parser.py:66-72 | It returns the registered class when the entry exists and is truthy. Otherwise it fails with the `ValueError` naming the extension. |
| `ParserRegistries.GetParser` | cfgengine/parser_registry.py:18-24 | The same lookup, but success yields an instance of the registered class, not the class itself. |
| `ParserRegistries.RegisterCfgParser` | cfgengine/parser_registry.py:27-33 | The decorator returns the class unchanged. The lookup over the table the decorator wrote then finds it under the extension, and every other extension resolves as before. Each copy writes its own table: here the lookup is `get_parser`, which gives an instance; `cfgengine/parser.py:223-232` writes the table `get_parser_class` reads, which gives the class. |
| `ParserRegistries.GetAfterRegister` | cfgengine/parser_registry.py:13-24 | Right after a class is registered, the lookup finds that class, or an instance of it. |
| `ParserRegistries.LastRegistrationWins` | cfgengine/parser_registry.py:13-16 | Registering an extension twice keeps only the second class. |
| `ParserRegistries.RegisterLeavesOthers` | cfgengine/parser.py:61-72 | Registering one extension does not change the lookup of any other. |
| `ParserRegistries.CaseSensitive` | cfgengine/parser.py:61-72 | "ini" and "INI" are separate entries. |
| `ParserRegistries.EmptyResolvesNothing` | tests/test_parser.py:46-48 | An extension nobody registered fails with `ValueError`. |
| `DotDicts.Wrap` | cfgengine/utils.py:2-6 | `DotDict(d)` keeps exactly the keys of `d`, in order. |
| `DotDicts.WrapValue` | cfgengine/parser.py:88-92 | A dict becomes a `DotDict` with the same keys in the same order. Any other value, a list holding dicts included, is kept as it is. |
| `DotDicts.WrapEntries` | cfgengine/utils.py:2-6 | Construction keeps exactly the source's keys in order, and wraps each value. |
| `DotDicts.UnwrapWrap` | cfgengine/utils.py:2-6 | Wrapping loses nothing: unwrapping gives back the original tree. |
| `DotDicts.WrapIsFullyWrapped` | cfgengine/parser.py:88-92 | After construction every dict reachable through dict values is a `DotDict`. |
| `DotDicts.WrapLookup` | cfgengine/utils.py:2-6 | A key lookup in the wrapped dict succeeds exactly when it succeeds in the source, and yields the wrapped source value. |
| `DotDicts.GetAttr` | cfgengine/utils.py:8-11 | Reading a present key returns its value. Reading an absent key raises `AttributeError` with the owner's message. |
| `DotDicts.ReadAttribute` | cfgengine/parser.py:94-97 | The name of a `dict` method reads as that method; `__getattr__` never runs for it. Any other name reads as `__getattr__` does. |
| `DotDicts.MethodNameShadowsKey` | cfgengine/parser.py:94-100 | A key named `items` can be written and is stored, but reading the attribute `items` yields the dict method. |
| `DotDicts.SetAttr` | cfgengine/utils.py:13-14 | Writing an attribute is an ordinary dict assignment. An existing key keeps its place, a new key is appended, and keys stay distinct. |
| `DotDicts.SetAttrThenGet` | cfgengine/parser.py:99-100 | Reading back a written attribute gives the value written, and every other name reads as before. |
| `DotDicts.DelAttr` | cfgengine/utils.py:16-20 | Deleting succeeds exactly when the key is present, and removes it without losing any other key. An absent key raises `AttributeError`. |
| `DotDicts.DelAttrRemovesOnlyThat` | cfgengine/parser.py:102-106 | Deleting a present key removes exactly its entry. The others keep their order, and every other name reads as before. |
| `DotDicts.NestedAttributeRead` | tests/test_parser.py:16-19 | On a freshly built `DotDict`, `d.nested.subkey` yields the source's nested value. |
| `DotDicts.ParseToDotDict` | cfgengine/parser.py:41-43 | Parsing a loaded configuration and wrapping it succeeds exactly when `parse_config` does. The result keeps the configuration's keys, and each key holds the wrapped result of parsing the original value under that key. |
| `Scenarios.NestedCallIsReported` | cfgengine/parser.py:134-135 | For `{{ outer(inner()) }}`, both `outer` and `inner` are reported. |
| `Scenarios.ReversedKeysAreNotFirstAppearance` | cfgengine/parser.py:123-133 | For `{{ outer(inner()) }}`, the keys `inner, outer` are not in first-appearance order, so the extractor cannot return them that way round. |
| `Scenarios.AttributeCallIsNotReported` | cfgengine/parser.py:126-130 | For `{{ obj.method(f()) }}`, only `f` is reported. |
| `Scenarios.SameNativeTwiceIsNoConflict` | cfgengine/parser.py:175-181 | One native function called twice gives one key with two entries, and no `ParserError`. |
| `Scenarios.TwoNativesConflict` | cfgengine/parser.py:181-186 | With `import_py_obj` and a second native function, the template fails with `ParserError` listing both in the walk's visiting order. |
| `Scenarios.EnvVarWithNativeIsNoConflict` | cfgengine/parser.py:260-265 | `env_var` is not native, so using it inside `import_py_obj(...)` does not conflict. |
| `OrderedDicts.SetAbsentAppends` | cfgengine/parser.py:152-154 | Assigning to a new key appends exactly one entry at the end, which is where `parse_config` gets its key order. |
| `OrderedDicts.RemoveEntry` | cfgengine/parser.py:102-104 | `del` removes exactly the entry of its key and keeps the order of the rest. |

## Left out

- Jinja2 itself is not modelled: template parsing, rendering, and `NativeEnvironment`'s conversion of output to native values. The parser and renderer are uninterpreted fields of `Environment`. The parse tree is an input datatype with the node kinds the extractor tells apart.
- `cfgengine/config_loader.py` and `cfgengine/default_parser.py` are not part of this model. They are file-system checks, an environment lookup of the config path, logging, and `json`/`configparser` decoding.
- `CfgParser.parse` is left out except for its last two steps (`DotDicts.ParseToDotDict`). Its check of the environment class, the `UserWarning` it issues, and the `warnings.formatwarning` override are not modelled.
- The registries are class attributes shared by the whole process. Here each table is an explicit value, and concurrency is not modelled.
- `importlib.import_module`, `getattr` and `os.getenv` are parameters or a map. Their side effects are not modelled.
- `ParserRegistries.GetParser`: an exception raised by the class's constructor is not modelled. Success always yields an instance.
- `DotDicts.ReadAttribute`: only the public `dict` methods shadow keys. Dunder attributes (`__class__`, `__doc__`, ...) also shadow keys, and are not modelled.
- `DotDicts.ParseToDotDict`: it states the result's keys and values only for a configuration whose keys are distinct, which every Python dict is.
- `Environments.ReturnsNativeNonString`: the source sets the tag on the function object itself, so tagging a function that is already registered also makes the registered global native. Here the tag is set on a copy, so tagging after registration does not reach the registered entry. The module's own `import_py_obj` is tagged before it is registered, which the model covers.
- Object identity is not modelled. Setting an attribute stores the value as given, so a plain dict stays plain, and nothing tracks whether two names hold the same object.

## Findings

| source | as written | input that shows it | evidently intended | confidence | as-written member | corrected member |
|---|---|---|---|---|---|---|
| cfgengine/parser.py:182-186 | The conflict message is built from adjacent f-strings: the first ends in "non-string-returning" and the next starts with "functions", with no space between, so the message reads "non-string-returningfunctions". | Any template calling two native functions, e.g. key `k` with `import_py_obj(...)` and `load_table(...)`. | "Multiple non-string-returning functions cannot be used together ..." | high; not executed | `TemplateParser.MessageRunsWordsTogether` | `TemplateParser.ConflictMessageNames` |
