/**
  The Jinja2 environment the engine renders against, the decorators that
  register functions and filters into it, the `returns_native` tag, and the
  two built-in template functions.
 */
module Environments {
  import opened Results
  import opened ConfigValues
  import opened TemplateAst

  /** Any object bound in a namespace, as far as the engine can see it: its
      `__name__` and its `returns_native` attribute (absent reads as false). */
  datatype PyFunction = PyFunction(declaredName: string, returnsNative: bool)

  /** An exception raised while Jinja2 parses or renders: `UndefinedError`,
      or any other exception, which the engine never catches. */
  datatype TemplateFailure =
    | Undefined(message: string)
    | Raised(exception: string, message: string)

  /** A Jinja2 environment: the global-function and filter namespaces, plus
      Jinja2's own parser and renderer, which are outside this model. The
      renderer is handed the namespaces it renders against. */
  datatype Environment = Environment(
    globals: map<string, PyFunction>,
    filters: map<string, PyFunction>,
    parse: string -> Result<Node, TemplateFailure>,
    render: (map<string, PyFunction>, map<string, PyFunction>, string) -> Result<ConfigValue, TemplateFailure>)

  /** `returns_native_non_string`: tags the function and hands it back. */
  function ReturnsNativeNonString(f: PyFunction): (r: PyFunction)
    ensures r.returnsNative
    ensures r.declaredName == f.declaredName
  {
    f.(returnsNative := true)
  }

  /** `getattr(globals.get(name), "returns_native", False)`. */
  predicate IsNative(globals: map<string, PyFunction>, name: string)
    ensures name !in globals ==> !IsNative(globals, name)
  {
    name in globals && globals[name].returnsNative
  }

  /** The name a registration decorator binds: the explicit `name` unless it
      is `None`, otherwise the function's `__name__`. */
  function RegisteredName(name: Option<string>, f: PyFunction): string
  {
    match name
    case Some(n) => n
    case None => f.declaredName
  }

  /** `register_global_function(env, name)(f)`: binds `f` in the globals and
      returns `f` itself. */
  function RegisterGlobalFunction(env: Environment, name: Option<string>, f: PyFunction): (r: (Environment, PyFunction))
    ensures r.1 == f
    ensures RegisteredName(name, f) in r.0.globals && r.0.globals[RegisteredName(name, f)] == f
    ensures forall n :: n != RegisteredName(name, f) ==>
              (n in r.0.globals <==> n in env.globals) && (n in env.globals ==> r.0.globals[n] == env.globals[n])
    ensures r.0.filters == env.filters
    ensures r.0.parse == env.parse && r.0.render == env.render
  {
    (env.(globals := env.globals[RegisteredName(name, f) := f]), f)
  }

  /** `register_filter(env, name)(f)`: binds `f` in the filters, a namespace
      separate from the globals, and returns `f` itself. */
  function RegisterFilter(env: Environment, name: Option<string>, f: PyFunction): (r: (Environment, PyFunction))
    ensures r.1 == f
    ensures RegisteredName(name, f) in r.0.filters && r.0.filters[RegisteredName(name, f)] == f
    ensures forall n :: n != RegisteredName(name, f) ==>
              (n in r.0.filters <==> n in env.filters) && (n in env.filters ==> r.0.filters[n] == env.filters[n])
    ensures r.0.globals == env.globals
    ensures r.0.parse == env.parse && r.0.render == env.render
  {
    (env.(filters := env.filters[RegisteredName(name, f) := f]), f)
  }

  /** A later registration under the same name replaces the earlier one. */
  lemma LastGlobalRegistrationWins(env: Environment, name: string, f: PyFunction, g: PyFunction)
    ensures RegisterGlobalFunction(RegisterGlobalFunction(env, Some(name), f).0, Some(name), g).0.globals
         == RegisterGlobalFunction(env, Some(name), g).0.globals
  {
  }

  const ImportPyObj: PyFunction := PyFunction("import_py_obj", false)
  const EnvVarFunction: PyFunction := PyFunction("env_var", false)

  /** The environment after the module's own decorators have run: `import_py_obj`
      (tagged native, then registered under its own name) and `env_var`
      (registered, not tagged). */
  function WithBuiltins(env: Environment): (r: Environment)
    ensures IsNative(r.globals, "import_py_obj")
    ensures "env_var" in r.globals && !IsNative(r.globals, "env_var")
    ensures forall n :: n != "import_py_obj" && n != "env_var" ==>
              (n in r.globals <==> n in env.globals) && (n in env.globals ==> r.globals[n] == env.globals[n])
    ensures r.filters == env.filters
    ensures r.parse == env.parse && r.render == env.render
  {
    var withImport := RegisterGlobalFunction(env, None, ReturnsNativeNonString(ImportPyObj)).0;
    RegisterGlobalFunction(withImport, None, EnvVarFunction).0
  }

  /** `env_var(var_name, default)`: `os.getenv`, with the process environment
      passed in as a map. The Python default for `default` is the empty string. */
  function EnvVar(environ: map<string, string>, varName: string, default: string): (r: string)
    ensures varName in environ ==> r == environ[varName]
    ensures varName !in environ ==> r == default
  {
    if varName in environ then environ[varName] else default
  }

  /** What `import_py_obj` resolves: a whole module when the path has no dot,
      otherwise the attribute after the last dot of the module before it. */
  datatype ImportTarget =
    | WholeModule(moduleName: string)
    | ModuleAttribute(moduleName: string, attr: string)

  /** The index of the last `.` in `s`, if any. */
  function LastDot(s: string): (r: Option<nat>)
    ensures r.None? <==> '.' !in s
    ensures r.Some? ==> r.value < |s| && s[r.value] == '.' && '.' !in s[r.value + 1..]
  {
    if |s| == 0 then None
    else if s[|s| - 1] == '.' then Some(|s| - 1)
    else
      var init := s[..|s| - 1];
      assert s == init + [s[|s| - 1]];
      var r := LastDot(init);
      assert r.Some? ==> s[r.value + 1..] == init[r.value + 1..] + [s[|s| - 1]];
      r
  }

  /** `path.rsplit(".", 1)` when the path has a dot, otherwise the whole path. */
  function SplitDottedPath(path: string): (t: ImportTarget)
    ensures t.WholeModule? <==> '.' !in path
    ensures t.WholeModule? ==> t.moduleName == path
    ensures t.ModuleAttribute? ==> t.moduleName + "." + t.attr == path && '.' !in t.attr
  {
    match LastDot(path)
    case None => WholeModule(path)
    case Some(i) =>
      assert path == path[..i] + "." + path[i + 1..];
      ModuleAttribute(path[..i], path[i + 1..])
  }

  /** An exception raised by `importlib.import_module` or `getattr`. */
  datatype LookupFailure =
    | ImportError(message: string)
    | AttributeError(message: string)
    | OtherException(exception: string, message: string)

  /** `ValueError("Unable to import ...")`, or an exception `import_py_obj` does not catch. */
  datatype ImportFailure =
    | Unimportable(path: string, cause: string)
    | NotCaught(failure: LookupFailure)

  /** The `except (ImportError, AttributeError)` clause of `import_py_obj`:
      those two become the `ValueError` naming the path and carrying the
      original message; any other exception passes through; a value is
      returned as it is. */
  function CatchLookup<O>(r: Result<O, LookupFailure>, path: string): (c: Result<O, ImportFailure>)
    ensures r.Ok? <==> c.Ok?
    ensures r.Ok? ==> c.value == r.value
    ensures r.Err? && (r.error.ImportError? || r.error.AttributeError?) ==>
              c == Err(Unimportable(path, r.error.message))
    ensures r.Err? && r.error.OtherException? ==> c == Err(NotCaught(r.error))
  {
    match r
    case Ok(o) => Ok(o)
    case Err(ImportError(m)) => Err(Unimportable(path, m))
    case Err(AttributeError(m)) => Err(Unimportable(path, m))
    case Err(f) => Err(NotCaught(f))
  }

  /** `import_py_obj(path)`, with `importlib.import_module` and `getattr` as
      parameters. Only `ImportError` and `AttributeError` become the
      `ValueError` naming the path. */
  function ImportPyObject<O>(path: string, importModule: string -> Result<O, LookupFailure>,
                             getAttr: (O, string) -> Result<O, LookupFailure>): (r: Result<O, ImportFailure>)
    ensures '.' !in path ==> r == CatchLookup(importModule(path), path)
    ensures r.Ok? && '.' in path ==>
              && importModule(SplitDottedPath(path).moduleName).Ok?
              && getAttr(importModule(SplitDottedPath(path).moduleName).value, SplitDottedPath(path).attr) == Ok(r.value)
    ensures '.' in path && importModule(SplitDottedPath(path).moduleName).Err? ==>
              r == CatchLookup(Err(importModule(SplitDottedPath(path).moduleName).error), path)
    ensures '.' in path && importModule(SplitDottedPath(path).moduleName).Ok? ==>
              r == CatchLookup(getAttr(importModule(SplitDottedPath(path).moduleName).value, SplitDottedPath(path).attr), path)
    ensures r.Err? && r.error.Unimportable? ==> r.error.path == path
  {
    match SplitDottedPath(path)
    case WholeModule(m) => CatchLookup(importModule(m), path)
    case ModuleAttribute(m, a) =>
      match importModule(m)
      case Ok(mod) => CatchLookup(getAttr(mod, a), path)
      case Err(f) => CatchLookup(Err(f), path)
  }
}
