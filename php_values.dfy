/**
 * The shape of the PHP values a Set field reads from its form input, and the
 * two PHP/WordPress helpers it applies to them: `stripslashes_deep` and
 * `array_values`.
 *
 * A PHP array is an ordered map; it is modelled as the sequence of its
 * entries in iteration order, so `foreach` visits `entries[0]`, `entries[1]`, ...
 */
module PhpValues {

  /** An array key: PHP keys are integers or strings. */
  datatype Key = IntKey(n: int) | StrKey(s: string)

  /** A value found in the input: null, a non-string scalar, a string or a (nested) array. */
  datatype Value =
    | Null
    | Int(n: int)
    | Str(s: string)
    | Arr(entries: seq<Entry>)

  datatype Entry = Entry(key: Key, val: Value)

  /** The values of an array, in iteration order. */
  function Values(es: seq<Entry>): seq<Value> {
    seq(|es|, j requires 0 <= j < |es| => es[j].val)
  }

  /** True when the keys are exactly 0, 1, ..., n-1 in order: a PHP "list". */
  predicate IsList(es: seq<Entry>) {
    forall j :: 0 <= j < |es| ==> es[j].key == IntKey(j)
  }

  /**
   * `array_values`: the same values in the same order, renumbered 0..n-1.
   * Nothing is dropped or merged, so duplicates survive.
   */
  function ArrayValues(es: seq<Entry>): (r: seq<Entry>)
    ensures IsList(r)
    ensures Values(r) == Values(es)
  {
    seq(|es|, j requires 0 <= j < |es| => Entry(IntKey(j), es[j].val))
  }

  /** Renumbering an array that is already a list changes nothing. */
  lemma ArrayValuesOfList(es: seq<Entry>)
    requires IsList(es)
    ensures ArrayValues(es) == es
  {
  }

  /** Renumbering twice is renumbering once. */
  lemma ArrayValuesIdempotent(es: seq<Entry>)
    ensures ArrayValues(ArrayValues(es)) == ArrayValues(es)
  {
  }

  /**
   * `b` differs from `a` at most in its strings: nulls and integers are the
   * same, and arrays have the same length, the same keys in the same order,
   * and values that again differ at most in their strings.
   */
  predicate OnlyStringsDiffer(a: Value, b: Value) {
    match a
    case Null => b.Null?
    case Int(_) => b == a
    case Str(_) => b.Str?
    case Arr(es) =>
      b.Arr? && |b.entries| == |es| &&
      forall j :: 0 <= j < |es| ==>
        b.entries[j].key == es[j].key && OnlyStringsDiffer(es[j].val, b.entries[j].val)
  }

  /**
   * `stripslashes_deep`: WordPress maps its string function over every string
   * inside the value, descending into arrays and keeping their keys; values
   * that are not strings are returned unchanged. The string function itself
   * (`stripslashes`) is the parameter `unslash`.
   */
  function StripDeep(v: Value, unslash: string -> string): (r: Value)
    ensures OnlyStringsDiffer(v, r)
  {
    match v
    case Null => Null
    case Int(n) => Int(n)
    case Str(s) => Str(unslash(s))
    case Arr(es) => Arr(seq(|es|, j requires 0 <= j < |es| => Entry(es[j].key, StripDeep(es[j].val, unslash))))
  }

  /** Each value of an unslashed array is the unslashed value. */
  function StripAll(vs: seq<Value>, unslash: string -> string): seq<Value> {
    seq(|vs|, j requires 0 <= j < |vs| => StripDeep(vs[j], unslash))
  }

  /** The values of an unslashed array are the unslashed values of the array. */
  lemma StripValues(es: seq<Entry>, unslash: string -> string)
    ensures Values(StripDeep(Arr(es), unslash).entries) == StripAll(Values(es), unslash)
  {
  }

  /** When the string function changes nothing, neither does `stripslashes_deep`. */
  lemma {:induction false} StripDeepIdentity(v: Value, unslash: string -> string)
    requires forall s :: unslash(s) == s
    ensures StripDeep(v, unslash) == v
  {
    match v
    case Null =>
    case Int(_) =>
    case Str(_) =>
    case Arr(es) =>
      var r := StripDeep(v, unslash).entries;
      forall j | 0 <= j < |es|
        ensures r[j] == es[j]
      {
        StripDeepIdentity(es[j].val, unslash);
      }
  }
}
