/**
 * The per-option rule of the Set field's client-side template: which
 * checkboxes are drawn hidden, which are ticked, and where the single
 * "Show All Options" link goes. Markup, translation and the click handler
 * that reveals the hidden options are not modelled; only the decisions are.
 */
module SetTemplate {

  /** One candidate option: its value (as the string the template compares) and its display name. */
  datatype Choice = Choice(value: string, name: string)

  /** One line of the rendered list: an option's checkbox, or the "Show All Options" link. */
  datatype Row =
    | Checkbox(index: nat, value: string, name: string, hidden: bool, checked: bool)
    | ShowAll

  /** The rendered field: the "no options" notice, or the list of rows. */
  datatype View = NoOptions | SetList(rows: seq<Row>)

  /** `exceed`: the option at 0-based index `i` lies beyond a positive limit. */
  predicate Exceeds(i: nat, limit: int) {
    limit > 0 && i + 1 > limit
  }

  /** `last`: the option at index `i` is the final one of `count`. */
  predicate IsLast(i: nat, count: nat) {
    count == i + 1
  }

  /** The link follows option `i` when that option is shown, is not the last, and is number `limit`. */
  predicate ShowAllAfter(i: nat, limit: int, count: nat) {
    !Exceeds(i, limit) && !IsLast(i, count) && i + 1 == limit
  }

  /** `selected`: the option's value occurs among the field's current values. */
  predicate Selected(v: string, selected: seq<string>) {
    v in selected
  }

  function CheckboxFor(options: seq<Choice>, i: nat, limit: int, selected: seq<string>): Row
    requires i < |options|
  {
    Checkbox(i, options[i].value, options[i].name, Exceeds(i, limit), Selected(options[i].value, selected))
  }

  /** The rows the template emits for option `i`: its checkbox, then possibly the link. */
  function OptionRows(options: seq<Choice>, i: nat, limit: int, selected: seq<string>): seq<Row>
    requires i < |options|
  {
    [CheckboxFor(options, i, limit, selected)]
      + (if ShowAllAfter(i, limit, |options|) then [ShowAll] else [])
  }

  /** The rows emitted for the first `n` options, in order. */
  function Rows(options: seq<Choice>, n: nat, limit: int, selected: seq<string>): seq<Row>
    requires n <= |options|
  {
    if n == 0 then []
    else Rows(options, n - 1, limit, selected) + OptionRows(options, n - 1, limit, selected)
  }

  /** The template: "no options" for an empty option list, otherwise one row group per option. */
  function Render(options: seq<Choice>, limit: int, selected: seq<string>): (v: View)
    ensures v.NoOptions? <==> options == []
  {
    if options == [] then NoOptions else SetList(Rows(options, |options|, limit, selected))
  }

  predicate IsShowAll(r: Row) {
    r.ShowAll?
  }

  predicate IsVisibleCheckbox(r: Row) {
    r.Checkbox? && !r.hidden
  }

  /** How many rows satisfy `p`. */
  function Count(rows: seq<Row>, p: Row -> bool): nat {
    if rows == [] then 0 else (if p(rows[0]) then 1 else 0) + Count(rows[1..], p)
  }

  /** A row if it is a checkbox, nothing if it is the link. */
  function KeepCheckbox(r: Row): seq<Row> {
    if r.Checkbox? then [r] else []
  }

  /** The checkbox rows, in order, without the link. */
  function Checkboxes(rows: seq<Row>): seq<Row> {
    if rows == [] then [] else KeepCheckbox(rows[0]) + Checkboxes(rows[1..])
  }

  lemma {:induction false} CountConcat(a: seq<Row>, b: seq<Row>, p: Row -> bool)
    ensures Count(a + b, p) == Count(a, p) + Count(b, p)
  {
    if a == [] {
      assert a + b == b;
    } else {
      assert (a + b)[1..] == a[1..] + b;
      CountConcat(a[1..], b, p);
    }
  }

  lemma {:induction false} CheckboxesConcat(a: seq<Row>, b: seq<Row>)
    ensures Checkboxes(a + b) == Checkboxes(a) + Checkboxes(b)
  {
    if a == [] {
      assert a + b == b;
    } else {
      var ab := a + b;
      assert ab[0] == a[0] && ab[1..] == a[1..] + b;
      CheckboxesConcat(a[1..], b);
      calc {
        Checkboxes(ab);
        KeepCheckbox(a[0]) + Checkboxes(a[1..] + b);
        KeepCheckbox(a[0]) + (Checkboxes(a[1..]) + Checkboxes(b));
        (KeepCheckbox(a[0]) + Checkboxes(a[1..])) + Checkboxes(b);
      }
    }
  }

  /** The rows of option `i` hold exactly one checkbox, its own; the link is not a checkbox. */
  lemma OptionRowsCheckboxes(options: seq<Choice>, i: nat, limit: int, selected: seq<string>)
    requires i < |options|
    ensures Checkboxes(OptionRows(options, i, limit, selected)) == [CheckboxFor(options, i, limit, selected)]
  {
    var cb := CheckboxFor(options, i, limit, selected);
    var extra := if ShowAllAfter(i, limit, |options|) then [ShowAll] else [];
    CheckboxesConcat([cb], extra);
    assert Checkboxes([cb]) == KeepCheckbox(cb) + Checkboxes([]);
    assert Checkboxes(extra) == [];
  }

  /** The checkboxes among the rows of the first `n` options are those options' checkboxes, in order. */
  lemma {:induction false} RowsCheckboxes(options: seq<Choice>, n: nat, limit: int, selected: seq<string>)
    requires n <= |options|
    ensures |Checkboxes(Rows(options, n, limit, selected))| == n
    ensures forall i :: 0 <= i < n ==>
              Checkboxes(Rows(options, n, limit, selected))[i] == CheckboxFor(options, i, limit, selected)
  {
    if n > 0 {
      var prev := Rows(options, n - 1, limit, selected);
      var last := OptionRows(options, n - 1, limit, selected);
      var cb := CheckboxFor(options, n - 1, limit, selected);
      calc {
        Checkboxes(Rows(options, n, limit, selected));
        Checkboxes(prev + last);
        { CheckboxesConcat(prev, last); }
        Checkboxes(prev) + Checkboxes(last);
        { OptionRowsCheckboxes(options, n - 1, limit, selected); }
        Checkboxes(prev) + [cb];
      }
      RowsCheckboxes(options, n - 1, limit, selected);
      var cbs := Checkboxes(prev) + [cb];
      forall i | 0 <= i < n
        ensures cbs[i] == CheckboxFor(options, i, limit, selected)
      {
        if i < n - 1 {
          assert cbs[i] == Checkboxes(prev)[i];
        }
      }
    }
  }

  /** Rendering more options only extends the rows already emitted. */
  lemma {:induction false} RowsPrefix(options: seq<Choice>, m: nat, n: nat, limit: int, selected: seq<string>)
    requires m <= n <= |options|
    ensures Rows(options, m, limit, selected) <= Rows(options, n, limit, selected)
  {
    if m < n {
      RowsPrefix(options, m, n - 1, limit, selected);
    }
  }

  /** Before option number `limit`, no link has been emitted: the rows are plain checkboxes. */
  lemma {:induction false} RowsBeforeLimit(options: seq<Choice>, n: nat, limit: int, selected: seq<string>)
    requires n <= |options| && n < limit
    ensures Rows(options, n, limit, selected) == seq(n, i requires 0 <= i < n => CheckboxFor(options, i, limit, selected))
  {
    if n > 0 {
      RowsBeforeLimit(options, n - 1, limit, selected);
    }
  }

  /** The number of links among the rows of the first `n` options. */
  lemma {:induction false} RowsShowAllCount(options: seq<Choice>, n: nat, limit: int, selected: seq<string>)
    requires n <= |options|
    ensures Count(Rows(options, n, limit, selected), IsShowAll) ==
              if 1 <= limit <= n && limit < |options| then 1 else 0
  {
    if n > 0 {
      RowsShowAllCount(options, n - 1, limit, selected);
      CountConcat(Rows(options, n - 1, limit, selected), OptionRows(options, n - 1, limit, selected), IsShowAll);
      var extra := if ShowAllAfter(n - 1, limit, |options|) then [ShowAll] else [];
      CountConcat([CheckboxFor(options, n - 1, limit, selected)], extra, IsShowAll);
    }
  }

  /** The number of visible checkboxes among the rows of the first `n` options. */
  lemma {:induction false} RowsVisibleCount(options: seq<Choice>, n: nat, limit: int, selected: seq<string>)
    requires n <= |options|
    ensures Count(Rows(options, n, limit, selected), IsVisibleCheckbox) ==
              if limit <= 0 || n <= limit then n else limit
  {
    if n > 0 {
      RowsVisibleCount(options, n - 1, limit, selected);
      CountConcat(Rows(options, n - 1, limit, selected), OptionRows(options, n - 1, limit, selected), IsVisibleCheckbox);
      var extra := if ShowAllAfter(n - 1, limit, |options|) then [ShowAll] else [];
      CountConcat([CheckboxFor(options, n - 1, limit, selected)], extra, IsVisibleCheckbox);
    }
  }

  /**
   * Each option gets exactly one checkbox, in option order; the one at index
   * `i` is hidden iff the limit is positive and `i + 1` exceeds it, and is
   * ticked iff its value occurs among the selected values.
   */
  lemma RenderedCheckboxes(options: seq<Choice>, limit: int, selected: seq<string>)
    requires options != []
    ensures var cbs := Checkboxes(Render(options, limit, selected).rows);
            |cbs| == |options| &&
            forall i :: 0 <= i < |options| ==>
              cbs[i].Checkbox? && cbs[i].index == i &&
              cbs[i].value == options[i].value && cbs[i].name == options[i].name &&
              (cbs[i].hidden <==> limit > 0 && i + 1 > limit) &&
              (cbs[i].checked <==> options[i].value in selected)
  {
    RowsCheckboxes(options, |options|, limit, selected);
  }

  /** The shown options are a prefix: if option `j` is shown, so is every earlier one. */
  lemma ShownOptionsArePrefix(options: seq<Choice>, limit: int, selected: seq<string>, i: nat, j: nat)
    requires options != [] && i <= j < |options|
    ensures var cbs := Checkboxes(Render(options, limit, selected).rows);
            |cbs| == |options| && cbs[i].Checkbox? && cbs[j].Checkbox? &&
            (!cbs[j].hidden ==> !cbs[i].hidden)
  {
    RenderedCheckboxes(options, limit, selected);
  }

  /** With no positive limit every option is shown; otherwise exactly min(limit, count) are. */
  lemma VisibleOptionsCount(options: seq<Choice>, limit: int, selected: seq<string>)
    requires options != []
    ensures var rows := Render(options, limit, selected).rows;
            Count(rows, IsVisibleCheckbox) ==
              if limit <= 0 then |options|
              else if limit < |options| then limit else |options|
  {
    RowsVisibleCount(options, |options|, limit, selected);
  }

  /** The link appears at most once, and exactly when 1 <= limit < count. */
  lemma ShowAllAtMostOnce(options: seq<Choice>, limit: int, selected: seq<string>)
    requires options != []
    ensures var rows := Render(options, limit, selected).rows;
            Count(rows, IsShowAll) == if 1 <= limit < |options| then 1 else 0
  {
    RowsShowAllCount(options, |options|, limit, selected);
  }

  /** When it appears, the link comes directly after option number `limit`. */
  lemma ShowAllPosition(options: seq<Choice>, limit: int, selected: seq<string>)
    requires 1 <= limit < |options|
    ensures var rows := Render(options, limit, selected).rows;
            |rows| > limit && rows[limit] == ShowAll &&
            forall j :: 0 <= j < limit ==> rows[j].Checkbox? && rows[j].index == j
  {
    var rows := Render(options, limit, selected).rows;
    RowsBeforeLimit(options, limit - 1, limit, selected);
    RowsPrefix(options, limit, |options|, limit, selected);
    var head := Rows(options, limit, limit, selected);
    assert head == Rows(options, limit - 1, limit, selected)
                   + [CheckboxFor(options, limit - 1, limit, selected), ShowAll];
    assert head[limit] == ShowAll;
  }
}
