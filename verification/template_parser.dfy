/**
  `Parser`: walks a configuration tree and renders every string leaf as a
  Jinja2 template, refusing a template that calls more than one distinct
  native-returning global.
 */
module TemplateParser {
  import opened Results
  import opened OrderedDicts
  import opened ConfigValues
  import opened TemplateAst
  import opened Environments

  /** The exceptions `parse_string` lets out: its own `ParserError` for a
      conflict, the `ValueError` an `UndefinedError` is turned into, and any
      other exception of Jinja2's, unchanged. */
  datatype ParseError =
    | ParserError(key: string, functions: seq<string>)
    | ValueError(key: string, cause: string)
    | Uncaught(failure: TemplateFailure)

  /** The `except UndefinedError` clause of `parse_string`. */
  function Reraise(f: TemplateFailure, key: string): (e: ParseError)
    ensures f.Undefined? <==> e.ValueError?
    ensures e.ValueError? ==> e.key == key && e.cause == f.message
    ensures e.Uncaught? ==> e.failure == f
    ensures !e.ParserError?
  {
    match f
    case Undefined(m) => ValueError(key, m)
    case Raised(_, _) => Uncaught(f)
  }

  /** `a` can be obtained from `b` by dropping elements: each element of `a`
      is matched, in order, with the earliest unused element of `b` equal
      to it. */
  predicate Subsequence(a: seq<string>, b: seq<string>)
  {
    if |a| == 0 then true
    else if |b| == 0 then false
    else if a[0] == b[0] then Subsequence(a[1..], b[1..])
    else Subsequence(a, b[1..])
  }

  /** `idx` gives, for each element of `a`, a position of `b` holding it;
      the positions strictly increase. */
  predicate PositionsOf(idx: seq<nat>, a: seq<string>, b: seq<string>)
  {
    && |idx| == |a|
    && (forall k :: 0 <= k < |a| ==> idx[k] < |b| && b[idx[k]] == a[k])
    && (forall k, l :: 0 <= k < l < |a| ==> idx[k] < idx[l])
  }

  /** Where the elements of a subsequence sit in the sequence it was taken
      from: at strictly increasing positions holding the same names. */
  function Positions(a: seq<string>, b: seq<string>): (idx: seq<nat>)
    requires Subsequence(a, b)
    ensures PositionsOf(idx, a, b)
    decreases |b|
  {
    if |a| == 0 then []
    else if a[0] == b[0] then
      var rest := Positions(a[1..], b[1..]);
      PositionsMatch(rest, a, b);
      [0] + Shifted(rest)
    else
      var rest := Positions(a, b[1..]);
      PositionsSkip(rest, a, b);
      Shifted(rest)
  }

  /** Every position one further on. */
  function Shifted(idx: seq<nat>): (r: seq<nat>)
    ensures |r| == |idx|
    ensures forall k :: 0 <= k < |idx| ==> r[k] == idx[k] + 1
  {
    seq(|idx|, k requires 0 <= k < |idx| => idx[k] + 1)
  }

  /** The first element of `a` matched with the first of `b`. */
  lemma PositionsMatch(rest: seq<nat>, a: seq<string>, b: seq<string>)
    requires |a| > 0 && |b| > 0 && a[0] == b[0]
    requires PositionsOf(rest, a[1..], b[1..])
    ensures PositionsOf([0] + Shifted(rest), a, b)
  {
    var shifted := Shifted(rest);
    var idx := [0] + shifted;
    assert |idx| == |a|;
    forall k | 0 <= k < |a| ensures idx[k] == if k == 0 then 0 else rest[k - 1] + 1 {
      if k > 0 { assert idx[k] == shifted[k - 1]; }
    }
    forall k | 0 <= k < |a| ensures idx[k] < |b| && b[idx[k]] == a[k] {
      if k > 0 { assert b[1..][rest[k - 1]] == a[1..][k - 1]; }
    }
    forall k, l | 0 <= k < l < |a| ensures idx[k] < idx[l] {
      if k > 0 { assert rest[k - 1] < rest[l - 1]; }
    }
  }

  /** The first element of `b` left unmatched. */
  lemma PositionsSkip(rest: seq<nat>, a: seq<string>, b: seq<string>)
    requires |b| > 0
    requires PositionsOf(rest, a, b[1..])
    ensures PositionsOf(Shifted(rest), a, b)
  {
    forall k | 0 <= k < |a| ensures b[Shifted(rest)[k]] == a[k] {
      assert b[1..][rest[k]] == a[k];
    }
  }

  /** The list comprehension over the extracted names: the names whose global
      is tagged `returns_native`, in the order they are given. */
  function NativeFunctions(names: seq<string>, globals: map<string, PyFunction>): (r: seq<string>)
    ensures forall n :: n in r <==> n in names && IsNative(globals, n)
    ensures Subsequence(r, names)
    ensures Distinct(names) ==> Distinct(r)
    ensures |r| <= |names|
  {
    if |names| == 0 then []
    else
      var rest := NativeFunctions(names[1..], globals);
      assert forall n :: n in names <==> n == names[0] || n in names[1..];
      if IsNative(globals, names[0]) then
        assert ([names[0]] + rest)[1..] == rest;
        assert Distinct(names) ==> names[0] !in names[1..] by {
          if Distinct(names) {
            forall i | 0 <= i < |names| - 1 ensures names[1..][i] != names[0] {
              assert names[i + 1] != names[0];
            }
          }
        }
        [names[0]] + rest
      else
        assert |rest| > 0 ==> rest[0] != names[0] by {
          if |rest| > 0 { assert rest[0] in rest; }
        }
        rest
  }

  /** The native-returning globals a template's parse tree calls. */
  ghost predicate NativeCall(ast: Node, globals: map<string, PyFunction>, n: string)
  {
    Reported(ast, globals.Keys, n) && IsNative(globals, n)
  }

  /** The template calls at least two different native-returning globals. */
  ghost predicate Conflicting(ast: Node, globals: map<string, PyFunction>)
  {
    exists a, b :: a != b && NativeCall(ast, globals, a) && NativeCall(ast, globals, b)
  }

  /** `parse_string(value, key)`. */
  function ParseString(env: Environment, value: string, key: string): (r: Result<ConfigValue, ParseError>)
    ensures r.Ok? ==> env.parse(value).Ok? && env.render(env.globals, env.filters, value) == Ok(r.value)
    ensures r.Err? && r.error.ParserError? ==>
              env.parse(value).Ok? && r.error.key == key && |r.error.functions| > 1
              && forall n :: n in r.error.functions ==> IsNative(env.globals, n)
    ensures r.Err? && r.error.ValueError? ==> r.error.key == key
  {
    match env.parse(value)
    case Err(f) => Err(Reraise(f, key))
    case Ok(ast) =>
      var natives := NativeFunctions(Keys(Extract(ast, env.globals.Keys)), env.globals);
      if |natives| > 1 then Err(ParserError(key, natives))
      else
        match env.render(env.globals, env.filters, value)
        case Ok(v) => Ok(v)
        case Err(f) => Err(Reraise(f, key))
  }

  /** `str(n)` for a non-negative int. */
  function DecimalString(n: nat): (s: string)
    ensures |s| > 0
    ensures forall i :: 0 <= i < |s| ==> '0' <= s[i] <= '9'
  {
    var digit := ['0' + (n % 10) as char];
    if n < 10 then digit else DecimalString(n / 10) + digit
  }

  /** `f"{key}[{i}]"`, the key a list element is rendered under. */
  function IndexKey(key: string, i: nat): string
  {
    key + "[" + DecimalString(i) + "]"
  }

  /** `parse_value(value, key)`: strings are rendered, lists and dicts are
      walked, everything else is returned as it is. */
  function ParseValue(env: Environment, value: ConfigValue, key: string): (r: Result<ConfigValue, ParseError>)
    ensures value.Atom? ==> r == Ok(value)
    ensures r.Ok? && value.List? ==> r.value.List? && |r.value.items| == |value.items|
    ensures r.Ok? && value.Map? ==> r.value.Map? && Distinct(Keys(r.value.entries))
    decreases value
  {
    match value
    case Str(s) => ParseString(env, s, key)
    case Atom(_) => Ok(value)
    case List(items) =>
      (match ParseList(env, items, key)
       case Ok(out) => Ok(List(out))
       case Err(e) => Err(e))
    case Map(entries) =>
      (match ParseConfig(env, entries)
       case Ok(out) => Ok(Map(out))
       case Err(e) => Err(e))
  }

  /** `parse_list(lst, key)`: element `i` is parsed under `key[i]`, in order;
      the first failure is the one raised. */
  function ParseList(env: Environment, items: seq<ConfigValue>, key: string): (r: Result<seq<ConfigValue>, ParseError>)
    ensures r.Ok? ==> |r.value| == |items|
    decreases items
  {
    if |items| == 0 then Ok([])
    else
      match ParseList(env, items[..|items| - 1], key)
      case Err(e) => Err(e)
      case Ok(done) =>
        match ParseValue(env, items[|items| - 1], IndexKey(key, |items| - 1))
        case Err(e) => Err(e)
        case Ok(r) => Ok(done + [r])
  }

  /** `parse_config(config)`: a fresh dict filled by `parsed[key] = parse_value(value, key)`
      for each entry in order; a nested dict's entries use their own keys. */
  function ParseConfig(env: Environment, config: Dict<ConfigValue>): (r: Result<Dict<ConfigValue>, ParseError>)
    ensures r.Ok? ==> Distinct(Keys(r.value))
    ensures r.Ok? ==> forall k :: k in Keys(r.value) <==> k in Keys(config)
    decreases config
  {
    if |config| == 0 then Ok([])
    else
      var init, last := config[..|config| - 1], config[|config| - 1];
      assert Keys(config) == Keys(init) + [last.0];
      match ParseConfig(env, init)
      case Err(e) => Err(e)
      case Ok(done) =>
        match ParseEntry(env, last)
        case Err(e) => Err(e)
        case Ok(r) =>
          SetKeepsDistinct(done, last.0, r);
          Ok(Set(done, last.0, r))
  }

  /** One `parse_value(value, key)` call of the `parse_config` loop. */
  function ParseEntry(env: Environment, entry: (string, ConfigValue)): Result<ConfigValue, ParseError>
    decreases entry
  {
    ParseValue(env, entry.1, entry.0)
  }

  /** A list of distinct names has more than one element exactly when it
      holds two different names. */
  lemma DistinctPair(s: seq<string>)
    requires Distinct(s)
    ensures |s| > 1 <==> exists a, b :: a != b && a in s && b in s
  {
    if |s| > 1 {
      assert s[0] != s[1] && s[0] in s && s[1] in s;
    }
  }

  /** The conflict policy of `parse_string`: a template that parses fails with
      `ParserError` exactly when it calls two different native-returning
      globals; the error names the key and lists each such global once, in
      the order the extractor reports them, and nothing is rendered.
      Otherwise the result is the renderer's, with only `UndefinedError`
      turned into the `ValueError` naming the key. A parse failure is
      re-raised by the same rule. */
  lemma ParseStringOutcome(env: Environment, value: string, key: string)
    ensures env.parse(value).Err? ==> ParseString(env, value, key) == Err(Reraise(env.parse(value).error, key))
    ensures env.parse(value).Ok? ==>
              (ParseString(env, value, key).Err? && ParseString(env, value, key).error.ParserError?
               <==> Conflicting(env.parse(value).value, env.globals))
    ensures env.parse(value).Ok? && Conflicting(env.parse(value).value, env.globals) ==>
              && ParseString(env, value, key).error.key == key
              && Distinct(ParseString(env, value, key).error.functions)
              && forall n :: n in ParseString(env, value, key).error.functions
                             <==> NativeCall(env.parse(value).value, env.globals, n)
    ensures env.parse(value).Ok? && Conflicting(env.parse(value).value, env.globals) ==>
              Subsequence(ParseString(env, value, key).error.functions,
                          Keys(Extract(env.parse(value).value, env.globals.Keys)))
    ensures env.parse(value).Ok? && !Conflicting(env.parse(value).value, env.globals) ==>
              match env.render(env.globals, env.filters, value)
              case Ok(v) => ParseString(env, value, key) == Ok(v)
              case Err(f) => ParseString(env, value, key) == Err(Reraise(f, key))
  {
    if env.parse(value).Ok? {
      var ast := env.parse(value).value;
      var calls := Extract(ast, env.globals.Keys);
      var natives := NativeFunctions(Keys(calls), env.globals);
      assert Distinct(natives);
      assert forall n :: n in natives <==> NativeCall(ast, env.globals, n);
      DistinctPair(natives);
      assert |natives| > 1 <==> Conflicting(ast, env.globals);
    }
  }

  /** `parse_list` parses every element under `key[i]`, in order; it fails
      exactly when some element fails, with the error of the first failing
      element. */
  lemma {:induction false} ParseListOutcome(env: Environment, items: seq<ConfigValue>, key: string)
    ensures ParseList(env, items, key).Ok?
        <==> forall i :: 0 <= i < |items| ==> ParseValue(env, items[i], IndexKey(key, i)).Ok?
    ensures ParseList(env, items, key).Err? ==>
              exists i :: && 0 <= i < |items|
                          && ParseValue(env, items[i], IndexKey(key, i)) == Err(ParseList(env, items, key).error)
                          && forall j :: 0 <= j < i ==> ParseValue(env, items[j], IndexKey(key, j)).Ok?
    decreases |items|
  {
    if |items| > 0 {
      var n := |items| - 1;
      var init := items[..n];
      ParseListOutcome(env, init, key);
      assert forall i :: 0 <= i < n ==> init[i] == items[i];
      match ParseList(env, init, key)
      case Err(e) =>
        assert ParseList(env, items, key) == Err(e);
        var i :| && 0 <= i < n
                 && ParseValue(env, init[i], IndexKey(key, i)) == Err(e)
                 && forall j :: 0 <= j < i ==> ParseValue(env, init[j], IndexKey(key, j)).Ok?;
        assert ParseValue(env, items[i], IndexKey(key, i)) == Err(e);
      case Ok(done) =>
        match ParseValue(env, items[n], IndexKey(key, n))
        case Err(e) =>
          assert ParseList(env, items, key) == Err(e);
          assert forall j :: 0 <= j < n ==> ParseValue(env, items[j], IndexKey(key, j)).Ok?;
        case Ok(r) =>
          assert ParseList(env, items, key).Ok?;
          forall i | 0 <= i < |items|
            ensures ParseValue(env, items[i], IndexKey(key, i)).Ok?
          {
            if i < n {
              assert init[i] == items[i];
              assert ParseValue(env, init[i], IndexKey(key, i)).Ok?;
            } else {
              assert i == n;
            }
          }
    }
  }

  /** A successful `parse_list` keeps length and order: element `i` of the
      result is the parse of element `i` under `key[i]`. */
  lemma {:induction false} ParseListElements(env: Environment, items: seq<ConfigValue>, key: string)
    requires ParseList(env, items, key).Ok?
    ensures |ParseList(env, items, key).value| == |items|
    ensures forall i :: 0 <= i < |items| ==>
              ParseValue(env, items[i], IndexKey(key, i)) == Ok(ParseList(env, items, key).value[i])
    decreases |items|
  {
    if |items| > 0 {
      ParseListElements(env, items[..|items| - 1], key);
      ParseListElementsStep(env, items, key);
    }
  }

  /** The induction step of `ParseListElements`: one more element. */
  lemma ParseListElementsStep(env: Environment, items: seq<ConfigValue>, key: string)
    requires |items| > 0
    requires ParseList(env, items, key).Ok?
    requires var init := items[..|items| - 1];
      && ParseList(env, init, key).Ok?
      && |ParseList(env, init, key).value| == |init|
      && forall i :: 0 <= i < |init| ==>
           ParseValue(env, init[i], IndexKey(key, i)) == Ok(ParseList(env, init, key).value[i])
    ensures |ParseList(env, items, key).value| == |items|
    ensures forall i :: 0 <= i < |items| ==>
              ParseValue(env, items[i], IndexKey(key, i)) == Ok(ParseList(env, items, key).value[i])
  {
    var n := |items| - 1;
    var init := items[..n];
    var done := ParseList(env, init, key).value;
    var r := ParseValue(env, items[n], IndexKey(key, n));
    assert r.Ok? && ParseList(env, items, key).value == done + [r.value];
    var out := done + [r.value];
    forall i | 0 <= i < n
      ensures ParseValue(env, items[i], IndexKey(key, i)) == Ok(out[i])
    {
      assert init[i] == items[i] && out[i] == done[i];
    }
  }

  /** `parse_config` parses every value under its own key (never prefixed by
      an enclosing key); it fails exactly when some entry fails, with the error
      of the first failing entry. */
  lemma {:induction false} ParseConfigOutcome(env: Environment, config: Dict<ConfigValue>)
    ensures ParseConfig(env, config).Ok?
        <==> forall i :: 0 <= i < |config| ==> ParseValue(env, config[i].1, config[i].0).Ok?
    ensures ParseConfig(env, config).Err? ==>
              exists i :: && 0 <= i < |config|
                          && ParseValue(env, config[i].1, config[i].0) == Err(ParseConfig(env, config).error)
                          && forall j :: 0 <= j < i ==> ParseValue(env, config[j].1, config[j].0).Ok?
    decreases |config|
  {
    if |config| > 0 {
      var n := |config| - 1;
      var init := config[..n];
      ParseConfigOutcome(env, init);
      assert forall i :: 0 <= i < n ==> init[i] == config[i];
      match ParseConfig(env, init)
      case Err(e) =>
        assert ParseConfig(env, config) == Err(e);
        var i :| && 0 <= i < n
                 && ParseValue(env, init[i].1, init[i].0) == Err(e)
                 && forall j :: 0 <= j < i ==> ParseValue(env, init[j].1, init[j].0).Ok?;
        assert ParseValue(env, config[i].1, config[i].0) == Err(e);
      case Ok(done) =>
        match ParseValue(env, config[n].1, config[n].0)
        case Err(e) =>
          assert ParseConfig(env, config) == Err(e);
          assert forall j :: 0 <= j < n ==> ParseValue(env, config[j].1, config[j].0).Ok?;
        case Ok(r) =>
          assert ParseConfig(env, config).Ok?;
          forall i | 0 <= i < |config|
            ensures ParseValue(env, config[i].1, config[i].0).Ok?
          {
            if i < n {
              assert init[i] == config[i];
              assert ParseValue(env, init[i].1, init[i].0).Ok?;
            } else {
              assert i == n;
            }
          }
    }
  }

  /** For a dict (distinct keys), a successful `parse_config` returns exactly
      the input's keys, in the input's order, each holding the parse of the
      input's value under that key. */
  lemma {:induction false} ParseConfigEntries(env: Environment, config: Dict<ConfigValue>)
    requires Distinct(Keys(config))
    requires ParseConfig(env, config).Ok?
    ensures |ParseConfig(env, config).value| == |config|
    ensures forall i :: 0 <= i < |config| ==>
              && ParseConfig(env, config).value[i].0 == config[i].0
              && ParseValue(env, config[i].1, config[i].0) == Ok(ParseConfig(env, config).value[i].1)
    decreases |config|
  {
    if |config| > 0 {
      var init := config[..|config| - 1];
      DistinctInit(config);
      ParseConfigEntries(env, init);
      ParseConfigEntriesStep(env, config);
    }
  }

  /** The induction step of `ParseConfigEntries`: one more entry with a fresh key. */
  lemma ParseConfigEntriesStep(env: Environment, config: Dict<ConfigValue>)
    requires |config| > 0
    requires Distinct(Keys(config))
    requires ParseConfig(env, config).Ok?
    requires var init := config[..|config| - 1];
      && |ParseConfig(env, init).value| == |init|
      && forall i :: 0 <= i < |init| ==>
           && ParseConfig(env, init).value[i].0 == init[i].0
           && ParseValue(env, init[i].1, init[i].0) == Ok(ParseConfig(env, init).value[i].1)
    ensures |ParseConfig(env, config).value| == |config|
    ensures forall i :: 0 <= i < |config| ==>
              && ParseConfig(env, config).value[i].0 == config[i].0
              && ParseValue(env, config[i].1, config[i].0) == Ok(ParseConfig(env, config).value[i].1)
  {
    var n := |config| - 1;
    var init := config[..n];
    var done := ParseConfig(env, init).value;
    KeysAgree(done, init);
    ParseConfigAppends(env, config, done);
    var out := ParseConfig(env, config).value;
    forall i | 0 <= i < n
      ensures out[i].0 == config[i].0 && ParseValue(env, config[i].1, config[i].0) == Ok(out[i].1)
    {
      assert init[i] == config[i] && out[i] == done[i];
    }
  }

  /** A new key is appended to the dict `parse_config` has built so far. */
  lemma ParseConfigAppends(env: Environment, config: Dict<ConfigValue>, done: Dict<ConfigValue>)
    requires |config| > 0
    requires Distinct(Keys(config))
    requires ParseConfig(env, config).Ok?
    requires ParseConfig(env, config[..|config| - 1]) == Ok(done)
    requires Keys(done) == Keys(config[..|config| - 1])
    ensures ParseValue(env, config[|config| - 1].1, config[|config| - 1].0).Ok?
    ensures ParseConfig(env, config).value
         == done + [(config[|config| - 1].0, ParseValue(env, config[|config| - 1].1, config[|config| - 1].0).value)]
  {
    var n := |config| - 1;
    DistinctInit(config);
    SetAbsentAppends(done, config[n].0, ParseValue(env, config[n].1, config[n].0).value);
  }

  /** A tree without string leaves comes back unchanged: dicts stay dicts with
      the same entries, lists stay lists with the same elements. */
  lemma {:induction false} NoStringsUnchanged(env: Environment, value: ConfigValue, key: string)
    requires WellFormed(value)
    requires NoStrings(value)
    ensures ParseValue(env, value, key) == Ok(value)
    decreases value
  {
    match value
    case Atom(_) =>
    case List(items) =>
      forall i | 0 <= i < |items|
        ensures ParseValue(env, items[i], IndexKey(key, i)) == Ok(items[i])
      {
        NoStringsUnchanged(env, items[i], IndexKey(key, i));
      }
      ParseListOutcome(env, items, key);
      ParseListElements(env, items, key);
      assert ParseList(env, items, key).value == items;
    case Map(entries) =>
      forall i | 0 <= i < |entries|
        ensures ParseValue(env, entries[i].1, entries[i].0) == Ok(entries[i].1)
      {
        NoStringsUnchanged(env, entries[i].1, entries[i].0);
      }
      ParseConfigOutcome(env, entries);
      ParseConfigEntries(env, entries);
      var out := ParseConfig(env, entries).value;
      assert forall i :: 0 <= i < |entries| ==> out[i] == entries[i];
      assert out == entries;
  }

  /** Rendering keeps the outline of the tree: a dict stays a dict with the
      same keys in the same order, a list stays a list of the same length,
      a non-string scalar is unchanged; only a string leaf may become
      any value. */
  lemma {:induction false} ShapePreserved(env: Environment, value: ConfigValue, key: string)
    requires WellFormed(value)
    requires ParseValue(env, value, key).Ok?
    ensures SameShape(value, ParseValue(env, value, key).value)
    decreases value
  {
    match value
    case Str(_) =>
    case Atom(_) =>
    case List(items) =>
      ParseListElements(env, items, key);
      var out := ParseList(env, items, key).value;
      forall i | 0 <= i < |items|
        ensures SameShape(items[i], out[i])
      {
        ShapePreserved(env, items[i], IndexKey(key, i));
      }
    case Map(entries) =>
      ParseConfigEntries(env, entries);
      var out := ParseConfig(env, entries).value;
      forall i | 0 <= i < |entries|
        ensures SameShape(entries[i].1, out[i].1)
      {
        ShapePreserved(env, entries[i].1, entries[i].0);
      }
      assert Keys(out) == Keys(entries);
  }

  /** The digits of `s` read back as a number. */
  function DigitsValue(s: string): nat
    requires forall i :: 0 <= i < |s| ==> '0' <= s[i] <= '9'
  {
    if |s| == 0 then 0 else DigitsValue(s[..|s| - 1]) * 10 + (s[|s| - 1] - '0') as nat
  }

  /** `str(n)` reads back as `n`. */
  lemma {:induction false} DecimalRoundTrip(n: nat)
    ensures DigitsValue(DecimalString(n)) == n
  {
    var s := DecimalString(n);
    if n >= 10 {
      DecimalRoundTrip(n / 10);
      assert s[..|s| - 1] == DecimalString(n / 10);
    } else {
      assert s[..|s| - 1] == [];
    }
  }

  /** Different list positions are reported under different keys. */
  lemma {:induction false} IndexKeysDistinct(key: string, i: nat, j: nat)
    requires i != j
    ensures IndexKey(key, i) != IndexKey(key, j)
  {
    var a, b := DecimalString(i), DecimalString(j);
    if IndexKey(key, i) == IndexKey(key, j) {
      var k := |key| + 1;
      assert IndexKey(key, i)[k..|IndexKey(key, i)| - 1] == a;
      assert IndexKey(key, j)[k..|IndexKey(key, j)| - 1] == b;
      DecimalRoundTrip(i);
      DecimalRoundTrip(j);
      assert false;
    }
  }

  /** `w` occurs in `s` starting at index `i`. */
  predicate WordAt(s: string, w: string, i: int)
  {
    0 <= i <= |s| - |w| && s[i..i + |w|] == w
  }

  /** `w` occurs in `s` as a contiguous run. */
  ghost predicate ContainsWord(s: string, w: string)
  {
    exists i :: WordAt(s, w, i)
  }

  lemma ContainsInfix(a: string, w: string, c: string)
    ensures ContainsWord(a + w + c, w)
  {
    assert WordAt(a + w + c, w, |a|);
  }

  lemma ContainsWidened(a: string, s: string, c: string, w: string)
    requires ContainsWord(s, w)
    ensures ContainsWord(a + s + c, w)
  {
    var i :| WordAt(s, w, i);
    assert (a + s + c)[|a| + i..|a| + i + |w|] == s[i..i + |w|];
    assert WordAt(a + s + c, w, |a| + i);
  }

  /** `sep.join(names)`. */
  function Join(names: seq<string>, sep: string): string
  {
    if |names| == 0 then ""
    else if |names| == 1 then names[0]
    else names[0] + sep + Join(names[1..], sep)
  }

  /** The joined text names every element. */
  lemma {:induction false} JoinNamesEach(names: seq<string>, sep: string, i: int)
    requires 0 <= i < |names|
    ensures ContainsWord(Join(names, sep), names[i])
  {
    if |names| == 1 {
      ContainsInfix("", names[0], "");
      assert "" + names[0] + "" == names[0];
    } else if i == 0 {
      ContainsInfix("", names[0], sep + Join(names[1..], sep));
      assert "" + names[0] + (sep + Join(names[1..], sep)) == Join(names, sep);
    } else {
      JoinNamesEach(names[1..], sep, i - 1);
      ContainsWidened(names[0] + sep, Join(names[1..], sep), "", names[i]);
      assert names[0] + sep + Join(names[1..], sep) + "" == Join(names, sep);
    }
  }

  /** Pieces of the conflict message. The source builds it from adjacent
      f-strings; the first ends in "returning", the next starts with
      "functions". */
  const ConflictHead: string := "Template error for key '"
  const ConflictLead: string := "': Multiple non-string-"
  const ConflictRest: string := " cannot be used together in the same template. Found: "

  /** The `ParserError` message as the adjacent f-strings build it. */
  function ConflictMessageAsWritten(key: string, functions: seq<string>): string
  {
    ConflictHead + key + (ConflictLead + "returning") + ("functions" + ConflictRest) + Join(functions, ", ")
  }

  lemma AdjacentPieces(a: string, x: string, u: string, v: string, y: string, j: string)
    ensures ContainsWord(a + (x + u) + (v + y) + j, u + v)
  {
    assert a + (x + u) + (v + y) + j == (a + x) + (u + v) + (y + j);
    ContainsInfix(a + x, u + v, y + j);
  }

  /** Whatever the key and functions, the words "returning" and "functions"
      run together in the message. */
  lemma MessageRunsWordsTogether(key: string, functions: seq<string>)
    ensures ContainsWord(ConflictMessageAsWritten(key, functions), "returningfunctions")
  {
    AdjacentPieces(ConflictHead + key, ConflictLead, "returning", "functions", ConflictRest, Join(functions, ", "));
    assert "returning" + "functions" == "returningfunctions";
  }

  const ConflictPhrase: string := "non-string-returning functions cannot be used together"

  /** The message with the space the wording calls for. */
  function ConflictMessage(key: string, functions: seq<string>): string
  {
    ConflictHead + key + "': Multiple " + ConflictPhrase + " in the same template. Found: " + Join(functions, ", ")
  }

  /** Where each part of a five-part text can be found. */
  lemma FivePieces(h: string, k: string, m: string, p: string, f: string, j: string)
    ensures ContainsWord(h + k + m + p + f + j, k)
    ensures ContainsWord(h + k + m + p + f + j, p)
    ensures forall w :: ContainsWord(j, w) ==> ContainsWord(h + k + m + p + f + j, w)
  {
    var t := h + k + m + p + f + j;
    assert t == h + k + (m + p + f + j);
    ContainsInfix(h, k, m + p + f + j);
    assert t == (h + k + m) + p + (f + j);
    ContainsInfix(h + k + m, p, f + j);
    forall w | ContainsWord(j, w) ensures ContainsWord(t, w) {
      ContainsWidened(h + k + m + p + f, j, "", w);
      assert h + k + m + p + f + j + "" == t;
    }
  }

  /** The corrected message reads "non-string-returning functions", and
      names the key and every conflicting function. */
  lemma ConflictMessageNames(key: string, functions: seq<string>)
    ensures ContainsWord(ConflictMessage(key, functions), ConflictPhrase)
    ensures ContainsWord(ConflictMessage(key, functions), key)
    ensures forall i :: 0 <= i < |functions| ==> ContainsWord(ConflictMessage(key, functions), functions[i])
  {
    FivePieces(ConflictHead, key, "': Multiple ", ConflictPhrase, " in the same template. Found: ", Join(functions, ", "));
    forall i | 0 <= i < |functions| ensures ContainsWord(Join(functions, ", "), functions[i]) {
      JoinNamesEach(functions, ", ", i);
    }
  }

  /** Where the key and the joined names sit in a text shaped like the
      message as written. */
  lemma AsWrittenPieces(h: string, k: string, x: string, u: string, v: string, y: string, j: string)
    ensures ContainsWord(h + k + (x + u) + (v + y) + j, k)
    ensures forall w :: ContainsWord(j, w) ==> ContainsWord(h + k + (x + u) + (v + y) + j, w)
  {
    var t := h + k + (x + u) + (v + y) + j;
    assert t == h + k + ((x + u) + (v + y) + j);
    ContainsInfix(h, k, (x + u) + (v + y) + j);
    forall w | ContainsWord(j, w) ensures ContainsWord(t, w) {
      ContainsWidened(h + k + (x + u) + (v + y), j, "", w);
      assert h + k + (x + u) + (v + y) + j + "" == t;
    }
  }

  /** The message as written still names the key and every conflicting
      function. */
  lemma ConflictMessageAsWrittenNames(key: string, functions: seq<string>)
    ensures ContainsWord(ConflictMessageAsWritten(key, functions), key)
    ensures forall i :: 0 <= i < |functions| ==> ContainsWord(ConflictMessageAsWritten(key, functions), functions[i])
  {
    var j := Join(functions, ", ");
    AsWrittenPieces(ConflictHead, key, ConflictLead, "returning", "functions", ConflictRest, j);
    forall i | 0 <= i < |functions| ensures ContainsWord(j, functions[i]) {
      JoinNamesEach(functions, ", ", i);
    }
  }

  /** The text of each error `parse_string` raises: the conflict message as
      the source builds it, the `ValueError` naming the key and Jinja2's own
      message, or the uncaught exception's message as it is. */
  function ErrorMessage(e: ParseError): (m: string)
    ensures e.ParserError? || e.ValueError? ==> ContainsWord(m, e.key)
    ensures e.ParserError? ==> ContainsWord(m, "returningfunctions")
    ensures e.ParserError? ==> forall i :: 0 <= i < |e.functions| ==> ContainsWord(m, e.functions[i])
    ensures e.ValueError? ==> ContainsWord(m, e.cause)
    ensures e.Uncaught? ==> m == e.failure.message
  {
    match e
    case ParserError(key, functions) =>
      ConflictMessageAsWrittenNames(key, functions);
      MessageRunsWordsTogether(key, functions);
      ConflictMessageAsWritten(key, functions)
    case ValueError(key, cause) =>
      var head := "Error rendering template for key '";
      ContainsInfix(head, key, "': " + cause);
      ContainsInfix(head + key + "': ", cause, "");
      assert head + key + "': " + cause == head + key + ("': " + cause);
      assert head + key + "': " + cause + "" == head + key + "': " + cause;
      head + key + "': " + cause
    case Uncaught(f) => f.message
  }
}
