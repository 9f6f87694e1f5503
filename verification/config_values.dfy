/**
  The configuration tree a decoder hands to the template engine: a decoded
  JSON/INI document, and also whatever a native-returning template yields.
 */
module ConfigValues {
  import opened OrderedDicts

  /** Leaves that are not strings: JSON numbers, booleans and null, and any
      other Python object a native-returning function may produce. */
  datatype Scalar =
    | Null
    | Bool(b: bool)
    | Int(i: int)
    | Float(literal: string)
    | Object(description: string)

  /** Str | other scalar | list | dict, the four cases `Parser.parse_value` tells apart. */
  datatype ConfigValue =
    | Str(s: string)
    | Atom(scalar: Scalar)
    | List(items: seq<ConfigValue>)
    | Map(entries: Dict<ConfigValue>)

  /** Every dict in the tree has distinct keys, as every Python dict does. */
  predicate WellFormed(v: ConfigValue)
    decreases v
  {
    match v
    case List(items) => forall i :: 0 <= i < |items| ==> WellFormed(items[i])
    case Map(entries) =>
      && Distinct(Keys(entries))
      && forall i :: 0 <= i < |entries| ==> WellFormed(entries[i].1)
    case _ => true
  }

  /** The tree holds no string leaf at any depth (lists and dicts included). */
  predicate NoStrings(v: ConfigValue)
    decreases v
  {
    match v
    case Str(_) => false
    case Atom(_) => true
    case List(items) => forall i :: 0 <= i < |items| ==> NoStrings(items[i])
    case Map(entries) => forall i :: 0 <= i < |entries| ==> NoStrings(entries[i].1)
  }

  /** Two trees have the same outline: lists of equal length, dicts with the
      same keys in the same order, equal non-string scalars, and any values
      where the left tree has a string leaf (a rendered template may become
      anything). */
  predicate SameShape(v: ConfigValue, r: ConfigValue)
    decreases v
  {
    match v
    case Str(_) => true
    case Atom(_) => r == v
    case List(items) =>
      && r.List?
      && |r.items| == |items|
      && forall i :: 0 <= i < |items| ==> SameShape(items[i], r.items[i])
    case Map(entries) =>
      && r.Map?
      && Keys(r.entries) == Keys(entries)
      && forall i :: 0 <= i < |entries| ==> SameShape(entries[i].1, r.entries[i].1)
  }
}
