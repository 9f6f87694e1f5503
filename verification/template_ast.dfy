/**
  The part of a Jinja2 template's parse tree that `FunctionCallExtractor`
  looks at, and the extractor itself. The extractor is purely syntactic: it
  visits every node (branches that would never render included) and records
  each call whose callee is a bare name bound among the environment's globals.
 */
module TemplateAst {
  import opened Results
  import opened OrderedDicts

  /** A parse-tree node. `Call` lists its callee first and then every argument
      node (positional, keyword, `*args`, `**kwargs`), the order in which Jinja2
      yields a call's children; `Getattr` is `obj.attr`, so `obj.attr(...)` is a
      call whose callee is not a bare name; `Other` stands for every remaining
      node kind (template body, output, filters, constants, loops, ...) with its
      children in order. */
  datatype Node =
    | Name(name: string)
    | Call(callee: Node, args: seq<Node>)
    | Getattr(obj: Node, attr: string)
    | Other(children: seq<Node>)

  /** `node` calls the bare name `n`. */
  predicate IsCallOf(node: Node, n: string)
  {
    node.Call? && node.callee.Name? && node.callee.name == n
  }

  /** `s` is `t` or a node somewhere below it. */
  ghost predicate Occurs(s: Node, t: Node)
    decreases t
  {
    || s == t
    || match t
       case Name(_) => false
       case Call(callee, args) => Occurs(s, callee) || exists a :: a in args && Occurs(s, a)
       case Getattr(obj, _) => Occurs(s, obj)
       case Other(children) => exists c :: c in children && Occurs(s, c)
  }

  /** The reference meaning of "the extractor reports `n`": `n` is a global and
      some node anywhere in the tree calls it by its bare name. */
  ghost predicate Reported(t: Node, globals: set<string>, n: string)
  {
    n in globals && exists s :: Occurs(s, t) && IsCallOf(s, n)
  }

  /** The names `visit_node` appends, one per reported call, in visiting
      order: the node itself first, then its children left to right. */
  function CallNames(t: Node, globals: set<string>): (names: seq<string>)
    ensures forall n :: n in names ==> n in globals
    decreases t
  {
    match t
    case Name(_) => []
    case Call(callee, args) =>
      (if callee.Name? && callee.name in globals then [callee.name] else [])
      + CallNames(callee, globals) + CallNamesIn(args, globals)
    case Getattr(obj, _) => CallNames(obj, globals)
    case Other(children) => CallNamesIn(children, globals)
  }

  function CallNamesIn(ts: seq<Node>, globals: set<string>): (names: seq<string>)
    ensures forall n :: n in names ==> n in globals
    decreases ts
  {
    if |ts| == 0 then [] else CallNames(ts[0], globals) + CallNamesIn(ts[1..], globals)
  }

  lemma {:induction false} ListedInChild(ts: seq<Node>, globals: set<string>, i: int, n: string)
    requires 0 <= i < |ts|
    requires n in CallNames(ts[i], globals)
    ensures n in CallNamesIn(ts, globals)
  {
    if i > 0 {
      ListedInChild(ts[1..], globals, i - 1, n);
    }
  }

  lemma {:induction false} ListedHasChild(ts: seq<Node>, globals: set<string>, n: string)
    requires n in CallNamesIn(ts, globals)
    ensures exists i :: 0 <= i < |ts| && n in CallNames(ts[i], globals)
  {
    if n !in CallNames(ts[0], globals) {
      ListedHasChild(ts[1..], globals, n);
      var i :| 0 <= i < |ts| - 1 && n in CallNames(ts[1..][i], globals);
      assert ts[1..][i] == ts[i + 1];
    }
  }

  /** Everything listed is reported. */
  lemma {:induction false} ListedIsReported(t: Node, globals: set<string>, n: string)
    requires n in CallNames(t, globals)
    ensures Reported(t, globals, n)
    decreases t
  {
    match t
    case Name(_) =>
    case Call(callee, args) =>
      if callee.Name? && callee.name in globals && n == callee.name {
        assert Occurs(t, t) && IsCallOf(t, n);
      } else if n in CallNames(callee, globals) {
        ListedIsReported(callee, globals, n);
        var s :| Occurs(s, callee) && IsCallOf(s, n);
        assert Occurs(s, t);
      } else {
        ListedHasChild(args, globals, n);
        var i :| 0 <= i < |args| && n in CallNames(args[i], globals);
        ListedIsReported(args[i], globals, n);
        var s :| Occurs(s, args[i]) && IsCallOf(s, n);
        assert args[i] in args;
        assert Occurs(s, t);
      }
    case Getattr(obj, _) =>
      ListedIsReported(obj, globals, n);
      var s :| Occurs(s, obj) && IsCallOf(s, n);
      assert Occurs(s, t);
    case Other(children) =>
      ListedHasChild(children, globals, n);
      var i :| 0 <= i < |children| && n in CallNames(children[i], globals);
      ListedIsReported(children[i], globals, n);
      var s :| Occurs(s, children[i]) && IsCallOf(s, n);
      assert children[i] in children;
      assert Occurs(s, t);
  }

  /** Every call of a global by its bare name, at any depth, is listed. */
  lemma {:induction false} OccurringCallIsListed(s: Node, t: Node, globals: set<string>, n: string)
    requires n in globals
    requires Occurs(s, t) && IsCallOf(s, n)
    ensures n in CallNames(t, globals)
    decreases t
  {
    if s == t {
      return;
    }
    match t
    case Name(_) =>
    case Call(callee, args) =>
      if Occurs(s, callee) {
        OccurringCallIsListed(s, callee, globals, n);
      } else {
        var a :| a in args && Occurs(s, a);
        var i :| 0 <= i < |args| && args[i] == a;
        OccurringCallIsListed(s, a, globals, n);
        ListedInChild(args, globals, i, n);
      }
    case Getattr(obj, _) =>
      OccurringCallIsListed(s, obj, globals, n);
    case Other(children) =>
      var c :| c in children && Occurs(s, c);
      var i :| 0 <= i < |children| && children[i] == c;
      OccurringCallIsListed(s, c, globals, n);
      ListedInChild(children, globals, i, n);
  }

  /** `[k] * count`. */
  function Repeat(k: string, count: nat): seq<string>
  {
    seq(count, _ => k)
  }

  /** `calls[k].append(x)` on a `defaultdict(list)`. */
  function Append<X>(d: Dict<seq<X>>, k: string, x: X): Dict<seq<X>>
  {
    match Get(d, k)
    case Some(xs) => Set(d, k, xs + [x])
    case None => Set(d, k, [x])
  }

  /** The keys come in order of first appearance in `ks`: each key occurs in
      `ks` before any occurrence of a later key. */
  ghost predicate FirstAppearanceOrder(keys: seq<string>, ks: seq<string>)
  {
    forall i, j :: 0 <= i < j < |keys| ==>
      exists p :: 0 <= p < |ks| && ks[p] == keys[i] && keys[j] !in ks[..p + 1]
  }

  /** The `defaultdict(list)` built by appending each name under itself:
      one key per distinct name, in the order the names first appear,
      holding one entry per occurrence. */
  function Group(ks: seq<string>): (d: Dict<seq<string>>)
    ensures Distinct(Keys(d))
    ensures forall k :: k in Keys(d) <==> k in ks
    ensures FirstAppearanceOrder(Keys(d), ks)
    ensures forall k :: k in ks ==> Get(d, k) == Some(Repeat(k, multiset(ks)[k]))
    decreases |ks|
  {
    if |ks| == 0 then []
    else
      var prefix, last := ks[..|ks| - 1], ks[|ks| - 1];
      assert ks == prefix + [last];
      var before := Group(prefix);
      GroupStep(before, prefix, last);
      GroupOrderStep(before, prefix, last);
      Append(before, last, last)
  }

  /** Appending keeps the first-appearance order: a name already present
      keeps its place, a new one goes last. */
  lemma GroupOrderStep(before: Dict<seq<string>>, prefix: seq<string>, last: string)
    requires forall k :: k in Keys(before) <==> k in prefix
    requires FirstAppearanceOrder(Keys(before), prefix)
    ensures FirstAppearanceOrder(Keys(Append(before, last, last)), prefix + [last])
  {
    var ks, oldKeys := prefix + [last], Keys(before);
    var keys := Keys(Append(before, last, last));
    assert keys == if last in oldKeys then oldKeys else oldKeys + [last];
    forall i, j | 0 <= i < j < |keys|
      ensures exists p :: 0 <= p < |ks| && ks[p] == keys[i] && keys[j] !in ks[..p + 1]
    {
      assert keys[i] == oldKeys[i] && keys[i] in prefix;
      var p :| && 0 <= p < |prefix| && prefix[p] == keys[i]
               && (j < |oldKeys| ==> oldKeys[j] !in prefix[..p + 1]);
      ExtendedPrefix(prefix, last, p);
    }
  }

  /** A prefix of `prefix` is also a prefix of `prefix + [last]`. */
  lemma ExtendedPrefix(prefix: seq<string>, last: string, p: int)
    requires 0 <= p < |prefix|
    ensures (prefix + [last])[p] == prefix[p]
    ensures (prefix + [last])[..p + 1] == prefix[..p + 1]
  {
  }

  /** Appending one more name to a correct grouping of `prefix` gives a
      correct grouping of `prefix + [last]`. */
  lemma GroupStep(before: Dict<seq<string>>, prefix: seq<string>, last: string)
    requires Distinct(Keys(before))
    requires forall k :: k in Keys(before) <==> k in prefix
    requires forall k :: k in prefix ==> Get(before, k) == Some(Repeat(k, multiset(prefix)[k]))
    ensures Distinct(Keys(Append(before, last, last)))
    ensures forall k :: k in Keys(Append(before, last, last)) <==> k in prefix + [last]
    ensures forall k :: k in prefix + [last] ==>
              Get(Append(before, last, last), k) == Some(Repeat(k, multiset(prefix + [last])[k]))
  {
    var grown := Repeat(last, multiset(prefix)[last] + 1);
    AppendGrows(before, prefix, last);
    SetKeepsDistinct(before, last, grown);
    var d := Set(before, last, grown);
    forall k | k in prefix + [last]
      ensures Get(d, k) == Some(Repeat(k, multiset(prefix + [last])[k]))
    {
      GroupStepAt(before, prefix, last, k);
    }
  }

  /** The appended-to entry is the old run of `last` grown by one. */
  lemma AppendGrows(before: Dict<seq<string>>, prefix: seq<string>, last: string)
    requires forall k :: k in Keys(before) <==> k in prefix
    requires forall k :: k in prefix ==> Get(before, k) == Some(Repeat(k, multiset(prefix)[k]))
    ensures Append(before, last, last) == Set(before, last, Repeat(last, multiset(prefix)[last] + 1))
  {
    var grown := Repeat(last, multiset(prefix)[last] + 1);
    match Get(before, last)
    case Some(xs) =>
      assert last in prefix;
      assert xs + [last] == grown;
    case None =>
      assert last !in prefix;
      assert [last] == grown;
  }

  lemma GroupStepAt(before: Dict<seq<string>>, prefix: seq<string>, last: string, k: string)
    requires forall k :: k in prefix ==> Get(before, k) == Some(Repeat(k, multiset(prefix)[k]))
    requires k in prefix + [last]
    ensures Get(Set(before, last, Repeat(last, multiset(prefix)[last] + 1)), k)
         == Some(Repeat(k, multiset(prefix + [last])[k]))
  {
    var count := multiset(prefix + [last])[k];
    SetLookup(before, last, Repeat(last, multiset(prefix)[last] + 1));
    if k == last {
      assert count == multiset(prefix)[last] + 1 by {
        assert multiset(prefix + [last]) == multiset(prefix) + multiset{last};
      }
    } else {
      assert count == multiset(prefix)[k] by {
        assert multiset(prefix + [last]) == multiset(prefix) + multiset{last};
      }
      assert k in prefix by {
        assert k in prefix + [last];
      }
    }
  }

  /** `FunctionCallExtractor.extract` on an already parsed template: keys are
      exactly the globals some node calls by bare name (nested calls and
      calls inside arguments included), each key once, in the order the walk
      first reaches a call of it, holding one entry per call. */
  function Extract(t: Node, globals: set<string>): (calls: Dict<seq<string>>)
    ensures Distinct(Keys(calls))
    ensures forall n :: n in Keys(calls) <==> Reported(t, globals, n)
    ensures FirstAppearanceOrder(Keys(calls), CallNames(t, globals))
    ensures forall n :: n in Keys(calls) ==> Get(calls, n) == Some(Repeat(n, multiset(CallNames(t, globals))[n]))
  {
    var names := CallNames(t, globals);
    forall n | n in names ensures Reported(t, globals, n) {
      ListedIsReported(t, globals, n);
    }
    forall n | Reported(t, globals, n) ensures n in names {
      var s :| Occurs(s, t) && IsCallOf(s, n);
      OccurringCallIsListed(s, t, globals, n);
    }
    Group(names)
  }
}
