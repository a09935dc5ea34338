# Set field model

A Dafny model of the Set field of Carbon Fields (`core/Field/Set_Field.php`).
A Set field is a group of checkboxes. An editor ticks any number of predefined
options, and the field keeps the ticked values. The model covers four things:

- how the field loads its value from submitted form input (`set_value_from_input`);
- how it turns the stored value into a list of `{'value': v}` records (`get_value_set`);
- the `limit_options` setter and the keys `to_json` adds for the client template;
- the client template's per-option rule: which checkboxes are hidden, which are
  ticked, and where the single "Show All Options" link goes.

Files:

- `php_values.dfy` (module `PhpValues`): PHP input values (null, integers, strings,
  ordered arrays with integer or string keys), `stripslashes_deep` and `array_values`.
- `set_field.dfy` (module `SetField`): the class `Field` with fields `name`, `value`
  and `limitOptions`, and its methods. It also holds the specification function
  `LoadedValue` and lemmas that link loading, the value set and the rendered form.
- `set_template.dfy` (module `SetTemplate`): the template's decisions as pure
  functions over (index, limit, option count), with lemmas about the rows they produce.

The loader does not de-duplicate submitted values: lines 54-58 only unslash
and renumber. `LoadKeepsDuplicates` shows a repeated value being kept.

## Model

| member | source | states |
|---|---|---|
| PhpValues.ArrayValues | core/Field/Set_Field.php:55-57 | renumbering an array gives keys exactly 0..n-1 and the same values in the same order, so duplicates are kept |
| PhpValues.ArrayValuesOfList | core/Field/Set_Field.php:55-57 | an array already keyed 0..n-1 is left unchanged by renumbering |
| PhpValues.ArrayValuesIdempotent | core/Field/Set_Field.php:55-57 | renumbering twice gives the same result as renumbering once |
| PhpValues.StripDeep | core/Field/Set_Field.php:54 | deep unslashing changes nothing but strings: nulls and integers stay as they are, and every array, at any depth, keeps its length and its keys in order |
| PhpValues.StripValues | core/Field/Set_Field.php:54 | the values of an unslashed array are the element-wise unslashed values, in the same order |
| PhpValues.StripDeepIdentity | core/Field/Set_Field.php:54 | if the string function changes nothing, deep unslashing changes nothing at any depth |
| SetField.LoadedValue | core/Field/Set_Field.php:51-58 | no entry (or a null entry) under the name gives null; an array entry gives a list keyed 0..n-1 of the element-wise unslashed values in input order; any other entry is unslashed and kept as is, with no renumbering |
| SetField.Field.constructor | core/Field/Set_Field.php:15 | a new field starts with limit 0 |
| SetField.Field.LimitOptions | core/Field/Set_Field.php:36-39 | stores the limit, returns the same instance, and leaves name and value unchanged |
| SetField.Field.SetValueFromInput | core/Field/Set_Field.php:46-60 | the new value is `LoadedValue` of the input under the field's name; name and limit are unchanged |
| SetField.Field.GetValueSet | core/Field/Set_Field.php:62-72 | returns one `{'value': v}` record per stored value, in order; a non-array value (null included) gives exactly one record |
| SetField.Field.ToJson | core/Field/Set_Field.php:84-87 | the result has the parent's keys plus `limit_options` and `options`; those two keys hold the limit and the parsed options, and every other key keeps the parent's value |
| SetField.LoadThenValueList | core/Field/Set_Field.php:51-71 | after loading, the value set is one null record when the name is absent, the unslashed elements in input order for an array, and one unslashed record for a scalar |
| SetField.LoadKeepsDuplicates | core/Field/Set_Field.php:54-58 | a value submitted twice under sparse or string keys is stored twice, under keys 0 and 1 |
| SetField.SubmitThenLoad | core/Field/Set_Field.php:51-58 | posting the rendered checkboxes (named `name[i]`, line 111) and loading them stores the ticked options' unslashed values in option order, keyed 0..k-1; with nothing ticked the value is null and the value set is one null record |
| SetTemplate.Render | core/Field/Set_Field.php:97-99 | the "no options" branch is taken exactly when the option list is empty |
| SetTemplate.RenderedCheckboxes | core/Field/Set_Field.php:101-111 | every option gets exactly one checkbox, in option order; the one at 0-based index i is hidden iff limit > 0 and i + 1 > limit, and is checked iff its value occurs in the selected values |
| SetTemplate.ShownOptionsArePrefix | core/Field/Set_Field.php:104-109 | the shown options are the first ones: if option j is shown, so is every option before it |
| SetTemplate.VisibleOptionsCount | core/Field/Set_Field.php:104-109 | with limit <= 0 every option is shown; otherwise exactly min(limit, count) options are shown |
| SetTemplate.ShowAllAtMostOnce | core/Field/Set_Field.php:104-118 | the "Show All Options" link appears at most once, and exactly when 1 <= limit < count |
| SetTemplate.ShowAllPosition | core/Field/Set_Field.php:116-117 | when the link appears it comes directly after option number `limit`: rows 0..limit-1 are the checkboxes of options 0..limit-1 and row `limit` is the link |
| SetTemplate.RowsCheckboxes | core/Field/Set_Field.php:101-111 | among the rows emitted for the first n options, the checkboxes are exactly those n options' checkboxes, in order |
| SetTemplate.RowsShowAllCount | core/Field/Set_Field.php:116-118 | after the first n options, the link has been emitted once if 1 <= limit <= n and limit < count, and never otherwise |
| SetTemplate.RowsVisibleCount | core/Field/Set_Field.php:104-109 | after the first n options, n of them are shown if limit <= 0 or n <= limit, and limit of them otherwise |

## Left out

- The `$_POST` default (lines 47-48) is request I/O. The input is always an explicit map parameter.
- `stripslashes` is the string parameter `unslash`, because it is WordPress code outside this file. Objects inside the input, floats and booleans are not modelled; `Int` stands for every non-string scalar, which `stripslashes_deep` leaves unchanged.
- The `$input` map is keyed by the field name as a string. PHP's conversion of numeric-string keys to integers is not modelled.
- `set_value` and `get_value` belong to the parent class, which is not part of this model. They are plain writes and reads of `value`; any normalisation the parent does by expected value type is not modelled.
- SetField.Field.constructor: the parent constructor is not part of this model. The name and the initial value are parameters, and only the default limit of 0 is stated.
- SetField.Field.ToJson: `parent::to_json`, `parse_options` and `get_options` are parent-class code. Their results are parameters, and the JSON object is a map, so the key order `array_merge` produces is not modelled.
- `default_value` and `expected_value_type` (lines 22, 29) are only constants, because the framework uses them elsewhere.
- The template's markup, the `_e` translation calls and the jQuery click handler that reveals hidden options are UI rendering. Only the hidden, checked and link decisions are modelled.
- SetTemplate.RenderedCheckboxes: `jQuery.inArray(String(option.value), value)` is modelled as membership of an option value (a string) in a sequence of selected strings. A non-array `value` and the `String()` conversion of non-string option values are not modelled.
- SetField.SubmitThenLoad: how a browser posts a form is not part of the source. The model assumes that each ticked checkbox, hidden or not, posts its value under `name[i]` in document order, and that nothing at all is posted under the name when no box is ticked.
