/**
  Concrete templates worked through the model: what the extractor reports for
  nested and method calls, and when `parse_string` refuses a template.
 */
module Scenarios {
  import opened Results
  import opened OrderedDicts
  import opened TemplateAst
  import opened Environments
  import opened TemplateParser

  /** Grouping two different names: one key each, in order of appearance. */
  lemma GroupOfTwo(a: string, b: string)
    requires a != b
    ensures Group([a, b]) == [(a, [a]), (b, [b])]
  {
    assert [a, b][..1] == [a];
    assert [a][..0] == [];
    assert Group([a]) == Append([], a, a) == [(a, [a])];
    assert Group([a, b]) == Append([(a, [a])], b, b);
    assert Get([(a, [a])], b) == None;
    assert Set([(a, [a])], b, [b]) == [(a, [a])] + Set([(a, [a])][1..], b, [b]);
  }

  /** Grouping the same name twice: one key holding both occurrences. */
  lemma GroupOfSame(a: string)
    ensures Group([a, a]) == [(a, [a, a])]
  {
    assert [a, a][..1] == [a];
    assert [a][..0] == [];
    assert Group([a]) == Append([], a, a) == [(a, [a])];
    assert Group([a, a]) == Append([(a, [a])], a, a);
    assert Get([(a, [a])], a) == Some([a]);
    assert [a] + [a] == [a, a];
    assert Set([(a, [a])], a, [a, a]) == [(a, [a, a])] + [(a, [a])][1..];
  }

  /** `{{ outer(inner()) }}`: a call inside another call's arguments is
      reported too, because the walk descends into every child. */
  lemma NestedCallIsReported()
    ensures Keys(Extract(Call(Name("outer"), [Call(Name("inner"), [])]), {"outer", "inner"}))
         == ["outer", "inner"]
  {
    var t := Call(Name("outer"), [Call(Name("inner"), [])]);
    assert CallNames(t, {"outer", "inner"}) == ["outer", "inner"];
    GroupOfTwo("outer", "inner");
  }

  /** The extractor's keys for `{{ outer(inner()) }}` cannot come back
      reversed: "inner" does not appear before "outer" in the walk. */
  lemma ReversedKeysAreNotFirstAppearance()
    ensures !FirstAppearanceOrder(["inner", "outer"], ["outer", "inner"])
  {
    var keys, ks := ["inner", "outer"], ["outer", "inner"];
    forall p | 0 <= p < |ks| && ks[p] == keys[0]
      ensures keys[1] in ks[..p + 1]
    {
      assert p == 1 && ks[..p + 1][0] == keys[1];
    }
    assert 0 < 1 < |keys| && keys[0] == "inner" && keys[1] == "outer";
    if FirstAppearanceOrder(keys, ks) {
      assert false;
    }
  }

  /** `{{ obj.method(f()) }}`: a call through an attribute is not reported,
      but its arguments are still visited; a bare name that is not called is
      not reported either. */
  lemma AttributeCallIsNotReported()
    ensures Keys(Extract(Call(Getattr(Name("obj"), "method"), [Call(Name("f"), [])]), {"obj", "method", "f"}))
         == ["f"]
  {
    var t := Call(Getattr(Name("obj"), "method"), [Call(Name("f"), [])]);
    assert CallNames(t, {"obj", "method", "f"}) == ["f"];
  }

  /** A template whose calls name at most one native global is rendered, never
      refused. */
  lemma OneNativeRenders(env: Environment, value: string, key: string)
    ensures && env.parse(value).Ok?
            && |NativeFunctions(Keys(Extract(env.parse(value).value, env.globals.Keys)), env.globals)| <= 1
            && ParseString(env, value, key).Err?
            ==> !ParseString(env, value, key).error.ParserError?
  {
  }

  /** `{{ load() ~ load() }}` calls one native function twice: one key with
      two entries, and no conflict. */
  lemma SameNativeTwiceIsNoConflict(env: Environment, value: string, key: string)
    requires IsNative(env.globals, "load")
    requires env.parse(value) == Ok(Other([Call(Name("load"), []), Call(Name("load"), [])]))
    ensures Extract(env.parse(value).value, env.globals.Keys) == [("load", ["load", "load"])]
    ensures ParseString(env, value, key).Err? ==> !ParseString(env, value, key).error.ParserError?
  {
    var ast := env.parse(value).value;
    assert CallNames(ast, env.globals.Keys) == ["load", "load"];
    ExtractOfSame(ast, env.globals.Keys, "load");
    assert NativeFunctions(["load"], env.globals) == ["load"];
    OneNativeRenders(env, value, key);
  }

  /** A template calling one global twice is grouped under one key. */
  lemma ExtractOfSame(t: Node, globals: set<string>, a: string)
    requires CallNames(t, globals) == [a, a]
    ensures Extract(t, globals) == [(a, [a, a])]
  {
    GroupOfSame(a);
  }

  /** A template calling two different globals, one call each, is grouped
      under two keys in the order the walk visits them. */
  lemma ExtractOfTwo(t: Node, globals: set<string>, a: string, b: string)
    requires a != b
    requires CallNames(t, globals) == [a, b]
    ensures Keys(Extract(t, globals)) == [a, b]
  {
    GroupOfTwo(a, b);
  }

  /** The built-ins plus `load_table`, registered under its own name and
      tagged native. */
  function WithLoadTable(env: Environment): (e: Environment)
    ensures IsNative(e.globals, "import_py_obj") && IsNative(e.globals, "load_table")
    ensures e.parse == env.parse
  {
    RegisterGlobalFunction(WithBuiltins(env), None, ReturnsNativeNonString(PyFunction("load_table", false))).0
  }

  /** With the built-ins registered and a second native function `load_table`,
      `{{ import_py_obj("m.x") ~ load_table("t") }}` fails with `ParserError`
      naming both, in the order the walk visits them; nothing is rendered. */
  lemma TwoNativesConflict(env: Environment, value: string, key: string)
    requires env.parse(value) == Ok(Other([Call(Name("import_py_obj"), [Other([])]),
                                         Call(Name("load_table"), [Other([])])]))
    ensures ParseString(WithLoadTable(env), value, key) == Err(ParserError(key, ["import_py_obj", "load_table"]))
  {
    var e := WithLoadTable(env);
    var ast := e.parse(value).value;
    assert CallNames(ast, e.globals.Keys) == ["import_py_obj", "load_table"];
    ExtractOfTwo(ast, e.globals.Keys, "import_py_obj", "load_table");
    assert NativeFunctions(["import_py_obj", "load_table"], e.globals) == ["import_py_obj", "load_table"];
  }

  /** Of the two built-ins only `import_py_obj` is native. */
  lemma BuiltinNatives(env: Environment)
    ensures NativeFunctions(["import_py_obj", "env_var"], WithBuiltins(env).globals) == ["import_py_obj"]
  {
    var globals := WithBuiltins(env).globals;
    assert ["import_py_obj", "env_var"][1..] == ["env_var"];
    assert NativeFunctions(["env_var"], globals) == [];
  }

  /** `env_var` is a global but not native, so combining it with one native
      call is allowed. */
  lemma EnvVarWithNativeIsNoConflict(env: Environment, value: string, key: string)
    requires env.parse(value) == Ok(Other([Call(Name("import_py_obj"), [Call(Name("env_var"), [])])]))
    ensures ParseString(WithBuiltins(env), value, key).Err? ==>
              !ParseString(WithBuiltins(env), value, key).error.ParserError?
  {
    var e := WithBuiltins(env);
    var ast := e.parse(value).value;
    assert CallNames(ast, e.globals.Keys) == ["import_py_obj", "env_var"];
    ExtractOfTwo(ast, e.globals.Keys, "import_py_obj", "env_var");
    BuiltinNatives(env);
    OneNativeRenders(e, value, key);
  }
}
