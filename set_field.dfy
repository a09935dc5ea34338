/**
 * The Set field: a group of checkboxes from which an editor picks any number
 * of predefined options. The field keeps its name, its current value and the
 * number of options shown before a "Show All Options" link (`limit_options`).
 */
module SetField {
  import opened PhpValues
  import opened SetTemplate

  /** `limit_options` of a new field: 0, meaning every option is shown. */
  const DefaultLimitOptions: int := 0

  /** The field's default value: an empty array (no option picked). */
  const DefaultValue: Value := Arr([])

  /** The kinds of value a field may expect to receive; a Set field expects several. */
  datatype ValueType = SingleValue | MultipleValues

  const ExpectedValueType: ValueType := MultipleValues

  /** One element of the value set handed to the storage layer: `array('value' => $value)`. */
  datatype ValueRecord = ValueRecord(value: Value)

  /** The JSON data the client-side template receives. */
  datatype Json =
    | JNull
    | JBool(b: bool)
    | JInt(n: int)
    | JStr(s: string)
    | JArray(items: seq<Json>)
    | JObject(members: map<string, Json>)

  /** PHP `isset($input[$key])`: the key is present and its value is not null. */
  predicate IsSet(input: map<string, Value>, key: string) {
    key in input && input[key] != Null
  }

  /**
   * The value `set_value_from_input` stores for a field called `name`:
   * null when the input has nothing for it; otherwise the submitted value
   * unslashed, and, when that is an array, renumbered 0..n-1.
   */
  function LoadedValue(input: map<string, Value>, name: string, unslash: string -> string): (r: Value)
    ensures !IsSet(input, name) ==> r == Null
    ensures IsSet(input, name) && input[name].Arr? ==>
              r.Arr? && IsList(r.entries) &&
              Values(r.entries) == StripAll(Values(input[name].entries), unslash)
    ensures IsSet(input, name) && !input[name].Arr? ==> r == StripDeep(input[name], unslash)
  {
    if !IsSet(input, name) then Null
    else
      var v := StripDeep(input[name], unslash);
      if v.Arr? then
        StripValues(input[name].entries, unslash);
        Arr(ArrayValues(v.entries))
      else v
  }

  /** The values a stored value stands for: the elements of an array, or the value on its own. */
  function ValueList(v: Value): seq<Value> {
    if v.Arr? then Values(v.entries) else [v]
  }

  class Field {
    var name: string
    var value: Value
    var limitOptions: int

    constructor (name: string, value: Value)
      ensures this.name == name && this.value == value
      ensures limitOptions == DefaultLimitOptions
    {
      this.name := name;
      this.value := value;
      limitOptions := DefaultLimitOptions;
    }

    /** `limit_options($limit)`: store the limit and return the same field, for chaining. */
    method LimitOptions(limit: int) returns (self: Field)
      modifies this`limitOptions
      ensures self == this
      ensures limitOptions == limit
      ensures name == old(name) && value == old(value)
    {
      limitOptions := limit;
      self := this;
    }

    /** `set_value_from_input($input)`: load the value submitted under the field's name. */
    method SetValueFromInput(input: map<string, Value>, unslash: string -> string)
      modifies this`value
      ensures value == LoadedValue(input, name, unslash)
      ensures name == old(name) && limitOptions == old(limitOptions)
    {
      if !IsSet(input, name) {
        value := Null;
      } else {
        var v := StripDeep(input[name], unslash);
        if v.Arr? {
          v := Arr(ArrayValues(v.entries));
        }
        value := v;
      }
    }

    /**
     * `get_value_set()`: one `{'value': v}` record per stored value, in order;
     * a value that is not an array (null included) gives exactly one record.
     */
    method GetValueSet() returns (records: seq<ValueRecord>)
      ensures |records| == |ValueList(value)|
      ensures forall j :: 0 <= j < |records| ==> records[j] == ValueRecord(ValueList(value)[j])
      ensures !value.Arr? ==> records == [ValueRecord(value)]
    {
      var values := ValueList(value);
      records := [];
      var j := 0;
      while j < |values|
        invariant 0 <= j <= |values|
        invariant |records| == j
        invariant forall k :: 0 <= k < j ==> records[k] == ValueRecord(values[k])
      {
        records := records + [ValueRecord(values[j])];
        j := j + 1;
      }
    }

    /**
     * `to_json($load)`: the parent's data with `limit_options` and `options`
     * added or overridden. The parent's data and the parsed options come from
     * code that is not part of this model and are parameters.
     */
    function ToJson(parentData: map<string, Json>, parsedOptions: Json): (r: map<string, Json>)
      reads this
      ensures r.Keys == parentData.Keys + {"limit_options", "options"}
      ensures r["limit_options"] == JInt(limitOptions)
      ensures r["options"] == parsedOptions
      ensures forall k :: k in parentData && k != "limit_options" && k != "options" ==> r[k] == parentData[k]
    {
      parentData["limit_options" := JInt(limitOptions)]["options" := parsedOptions]
    }
  }

  /** What get_value_set yields right after set_value_from_input, for each shape of input. */
  lemma LoadThenValueList(input: map<string, Value>, name: string, unslash: string -> string)
    ensures !IsSet(input, name) ==> ValueList(LoadedValue(input, name, unslash)) == [Null]
    ensures IsSet(input, name) && input[name].Arr? ==>
              ValueList(LoadedValue(input, name, unslash)) == StripAll(Values(input[name].entries), unslash)
    ensures IsSet(input, name) && input[name].Str? ==>
              ValueList(LoadedValue(input, name, unslash)) == [Str(unslash(input[name].s))]
    ensures IsSet(input, name) && input[name].Int? ==>
              ValueList(LoadedValue(input, name, unslash)) == [input[name]]
  {
  }

  /** Submitting the same string twice stores it twice: loading does not de-duplicate. */
  lemma LoadKeepsDuplicates(name: string, s: string, unslash: string -> string)
    ensures var input := map[name := Arr([Entry(IntKey(3), Str(s)), Entry(StrKey("x"), Str(s))])];
            LoadedValue(input, name, unslash) ==
              Arr([Entry(IntKey(0), Str(unslash(s))), Entry(IntKey(1), Str(unslash(s)))])
  {
    var input := map[name := Arr([Entry(IntKey(3), Str(s)), Entry(StrKey("x"), Str(s))])];
    var r := LoadedValue(input, name, unslash);
    assert Values(r.entries) == StripAll(Values(input[name].entries), unslash);
    assert Values(r.entries)[0] == Str(unslash(s)) && Values(r.entries)[1] == Str(unslash(s));
  }

  /** What the checkbox named `name[i]` with value `v` posts: the value under key `i` when ticked, else nothing. */
  function PostedEntry(i: nat, v: string, ticked: set<nat>): seq<Entry> {
    if i in ticked then [Entry(IntKey(i), Str(v))] else []
  }

  /** What one row posts: a checkbox posts as above; the link posts nothing. */
  function Posted(r: Row, ticked: set<nat>): seq<Entry> {
    if r.Checkbox? then PostedEntry(r.index, r.value, ticked) else []
  }

  /**
   * What a browser posts for the rendered list: each checkbox is named
   * `name[i]`, so every ticked checkbox, hidden or not, sends its value under
   * the integer key `i`, in document order. Unticked checkboxes send nothing.
   */
  function Submission(rows: seq<Row>, ticked: set<nat>): seq<Entry> {
    if rows == [] then [] else Posted(rows[0], ticked) + Submission(rows[1..], ticked)
  }

  /** The form input that carries a submission: nothing at all under `name` when no box is ticked. */
  function FormInput(name: string, entries: seq<Entry>): map<string, Value> {
    if entries == [] then map[] else map[name := Arr(entries)]
  }

  /** The values of the ticked options among the first `n`, in option order. */
  function TickedValues(options: seq<Choice>, ticked: set<nat>, n: nat): seq<Value>
    requires n <= |options|
  {
    if n == 0 then []
    else TickedValues(options, ticked, n - 1) + (if n - 1 in ticked then [Str(options[n - 1].value)] else [])
  }

  /** The entry option `i` posts when ticked. */
  function TickedEntry(options: seq<Choice>, ticked: set<nat>, i: nat): seq<Entry>
    requires i < |options|
  {
    PostedEntry(i, options[i].value, ticked)
  }

  /** The entries posted for the ticked options among the first `n`, in option order. */
  function TickedEntries(options: seq<Choice>, ticked: set<nat>, n: nat): seq<Entry>
    requires n <= |options|
  {
    if n == 0 then [] else TickedEntries(options, ticked, n - 1) + TickedEntry(options, ticked, n - 1)
  }

  lemma {:induction false} SubmissionConcat(a: seq<Row>, b: seq<Row>, ticked: set<nat>)
    ensures Submission(a + b, ticked) == Submission(a, ticked) + Submission(b, ticked)
  {
    if a == [] {
      assert a + b == b;
    } else {
      var ab := a + b;
      assert ab[0] == a[0] && ab[1..] == a[1..] + b;
      SubmissionConcat(a[1..], b, ticked);
      calc {
        Submission(ab, ticked);
        Posted(a[0], ticked) + Submission(a[1..] + b, ticked);
        Posted(a[0], ticked) + (Submission(a[1..], ticked) + Submission(b, ticked));
        (Posted(a[0], ticked) + Submission(a[1..], ticked)) + Submission(b, ticked);
      }
    }
  }

  lemma ValuesConcat(a: seq<Entry>, b: seq<Entry>)
    ensures Values(a + b) == Values(a) + Values(b)
  {
  }

  /** The rows of option `i` post its entry exactly when `i` is ticked; the link posts nothing. */
  lemma OptionRowsPosted(options: seq<Choice>, i: nat, limit: int, selected: seq<string>, ticked: set<nat>)
    requires i < |options|
    ensures Submission(OptionRows(options, i, limit, selected), ticked) == TickedEntry(options, ticked, i)
  {
    var cb := CheckboxFor(options, i, limit, selected);
    var extra := if ShowAllAfter(i, limit, |options|) then [ShowAll] else [];
    SubmissionConcat([cb], extra, ticked);
    assert Submission([cb], ticked) == Posted(cb, ticked);
    assert Submission(extra, ticked) == [];
  }

  /** Adding option `n - 1` to the form adds exactly its own posted entry at the end. */
  lemma SubmissionStep(options: seq<Choice>, n: nat, limit: int, selected: seq<string>, ticked: set<nat>)
    requires 0 < n <= |options|
    ensures Submission(Rows(options, n, limit, selected), ticked) ==
              Submission(Rows(options, n - 1, limit, selected), ticked) + TickedEntry(options, ticked, n - 1)
  {
    var prev := Rows(options, n - 1, limit, selected);
    var last := OptionRows(options, n - 1, limit, selected);
    calc {
      Submission(Rows(options, n, limit, selected), ticked);
      Submission(prev + last, ticked);
      { SubmissionConcat(prev, last, ticked); }
      Submission(prev, ticked) + Submission(last, ticked);
      { OptionRowsPosted(options, n - 1, limit, selected, ticked); }
      Submission(prev, ticked) + TickedEntry(options, ticked, n - 1);
    }
  }

  lemma {:induction false} SubmissionOfRows(options: seq<Choice>, n: nat, limit: int, selected: seq<string>, ticked: set<nat>)
    requires n <= |options|
    ensures Submission(Rows(options, n, limit, selected), ticked) == TickedEntries(options, ticked, n)
  {
    if n > 0 {
      SubmissionStep(options, n, limit, selected, ticked);
      SubmissionOfRows(options, n - 1, limit, selected, ticked);
    }
  }

  lemma {:induction false} TickedEntriesValues(options: seq<Choice>, ticked: set<nat>, n: nat)
    requires n <= |options|
    ensures Values(TickedEntries(options, ticked, n)) == TickedValues(options, ticked, n)
  {
    if n > 0 {
      var prev := TickedEntries(options, ticked, n - 1);
      var last := TickedEntry(options, ticked, n - 1);
      ValuesConcat(prev, last);
      TickedEntriesValues(options, ticked, n - 1);
    }
  }

  /**
   * Posting the rendered form and loading it back stores the ticked options'
   * unslashed values, in option order, renumbered 0..k-1 even though the
   * posted keys skip the unticked indexes; with nothing ticked the stored
   * value is null, which get_value_set turns into a single null record.
   */
  lemma SubmitThenLoad(options: seq<Choice>, limit: int, selected: seq<string>, ticked: set<nat>,
                       name: string, unslash: string -> string)
    requires options != []
    ensures var input := FormInput(name, Submission(Render(options, limit, selected).rows, ticked));
            var picked := TickedValues(options, ticked, |options|);
            var stored := LoadedValue(input, name, unslash);
            (picked == [] ==> stored == Null && ValueList(stored) == [Null]) &&
            (picked != [] ==> stored.Arr? && IsList(stored.entries) &&
                              ValueList(stored) == StripAll(picked, unslash))
  {
    var entries := Submission(Render(options, limit, selected).rows, ticked);
    SubmissionOfRows(options, |options|, limit, selected, ticked);
    TickedEntriesValues(options, ticked, |options|);
    assert |entries| == |TickedValues(options, ticked, |options|)|;
  }
}
