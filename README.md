# Custom field types for Participants Database, modelled in Dafny

The plugin adds two form-element types to the Participants Database plugin
for WordPress. The first is a raw-HTML field whose markup lives in the field
definition's options. The second is a "log table" field: its value is a
sequence of rows keyed by column, and each save may append at most one new
row, so stored rows are never edited. Both types share a base adapter. The
base adapter answers the host's four entry points: build the element for
writing, display it for reading, give its storage datatype, and list it in the
type selector.

The model has four modules, one per source file plus one for PHP's values:

- `PhpArray` (`php_array.dfy`): PHP arrays as ordered entries with unique keys
  (`PArray`), with `isset`/read (`Get`), assignment (`Put`) and `unset`
  (`Unset`); the scalars and arrays a stored value can be; PHP's `empty()` on
  each of them.
- `CustomField` (`custom_field.dfy`): the field object the host hands over
  (`FieldObject`, a class, because the HTML field changes its options and
  output in place) and the base adapter `CustomField` (a class holding the
  field it is set up for).
- `HtmlField` (`html_field.dfy`): the markup extraction as a specification
  function, `ExtractHtml`, and the class method `FormElementHtml` that does it
  in place on the field object.
- `LogTable` (`log_table.dfy`): the row logic as functions (`HasValues`,
  `RowCount`, `SaveField`, `OptionColumns`) and the adapter class `LogTable`.
  Its state is `columns` and `values`, and its methods `SaveData`,
  `SetupColumns`, `SetupValue` and `TableFields` are loops or updates proved
  against those functions.

Subclassing is modelled by composition: `HtmlField` and `LogTable` each hold
their base adapter as `core`. The log table's storage-datatype override is
the `Kind` of that core.

What the host supplies is passed in as parameters:

- `clean`: the per-cell sanitiser that `filter_var_array` applies.
- `nonColumns`: the result of the non-column-options filter.
- `isPublic`: the result of the selector-visibility filter.
- `isEditor`: the user's role check.
- `saved` / `record`: the stored record, already decoded.
- `request` / `post`: the submitted form data.
- `registry`: the host's field definitions.

Two behaviours of the code are kept as written. First, `setup_columns` never
clears `columns`. An adapter set up for a second field therefore keeps the
first field's columns. `LogTable.SetupColumns` states this, and
`LogTable.FreshColumns` gives the columns of a fresh adapter. Second, the row
count treats only a PHP-`empty()` last element as a placeholder: an empty
array, `""`, `"0"`, `0`, `false` or `null`. A row whose cells are all blank is
an array with entries, so it is counted. The docblock at log_table.php:273 says
the count "ignores an empty row", but line 280 tests PHP's `empty()` on the
last element; the model follows line 280.

## Model

| member | source | states |
|---|---|---|
| PhpArray.Get | html_field.php:52-56 | `isset`/read: a key's value is present exactly when some entry has that key, and it is that entry's value |
| PhpArray.Put | pdb_custom_field.php:105 | assignment: the key now reads the new value, every other key reads as before, a present key keeps its position, an absent key is appended |
| PhpArray.Unset | html_field.php:54-57 | `unset`: the key is gone, every other key reads as before, and when the key was present the result is the array with that one entry cut out, the rest in their order |
| CustomField.CustomField.constructor | pdb_custom_field.php:40-44 | the adapter keeps its type name and title and starts with no field |
| CustomField.ElementDatatype | pdb_custom_field.php:144-147 | the base type asks for `TINYTEXT`; the log table, overriding it at log_table.php:232-235, and only the log table, asks for `TEXT` |
| CustomField.CustomField.SetDatatype | pdb_custom_field.php:84-87 | an element of this type gets `TEXT` for the log table and `TINYTEXT` otherwise (base default); any other element keeps the datatype it came with |
| CustomField.ChainResolvesDatatype | pdb_custom_field.php:84-87 | with distinct type names, running every type's datatype filter in turn gives the datatype of the element's own type, or the host default when no type claims it |
| CustomField.CustomField.AddElementToSelector | pdb_custom_field.php:96-108 | when public, the selector maps this type's name to its title; when not, it is returned unchanged; no other key changes in either case; an existing entry keeps its position and a new one is appended |
| CustomField.CustomField.SetupField | pdb_custom_field.php:156-159 | the adapter now holds the incoming field object; nothing else changes |
| CustomField.CustomField.DisplayFormElement | pdb_custom_field.php:67-75 | an element of another type displays as `""` whatever display came in, and the adapter is untouched; an element of this type is set up and shown by the type's own display |
| HtmlField.HtmlField.constructor | html_field.php:37-40 | the type is named `html`, and its title defaults to `HTML` when the given title is PHP-empty |
| HtmlField.ExtractHtml | html_field.php:46-60 | the `html` option is consumed when set, else option `0`, else nothing; the output is the consumed value, or `""` with the options unchanged; the consumed key is removed and every other option keeps its value |
| HtmlField.NamedOptionTakesPrecedence | html_field.php:52-58 | with both options set, the output is the `html` option and option `0` remains as it was |
| HtmlField.ExtractionRoundTrip | html_field.php:52-57 | putting the consumed option back gives options that agree with the originals on every key |
| HtmlField.HtmlField.FormElementHtml | html_field.php:46-60 | in place on the field: the output and options become those `ExtractHtml` gives for the old options, verbatim; name, element, value and attributes are unchanged |
| HtmlField.HtmlField.FormElementBuild | pdb_custom_field.php:56-60 | the write-mode build sets the field up, then moves its markup to its output as `ExtractHtml` gives it; the field's name, element, value and attributes are unchanged |
| LogTable.ImplodeEmpty | log_table.php:294 | the concatenated cells are empty exactly when every cell is the empty string |
| LogTable.HasValues | log_table.php:292-296 | a row has values exactly when at least one cell is a non-empty string |
| LogTable.Sanitize | log_table.php:76 | sanitising keeps every column and its position and cleans each cell |
| LogTable.RowCount | log_table.php:277-284 | the count is `count` or `count - 1`, and it is `count - 1` exactly when there is a last element and PHP's `empty()` holds for it |
| LogTable.Loaded | log_table.php:74 | a PHP-empty stored value loads as the empty table and any other value as it is, so a loaded scalar is never PHP-empty |
| LogTable.StoredTable | log_table.php:74 | a field's table is its stored value when that is set and not PHP-empty, and the empty table otherwise |
| LogTable.SaveField | log_table.php:74-78 | a row with values yields the stored rows as an unchanged prefix followed by exactly one new sanitised row; a row without values leaves the stored value as it was; failure happens exactly when a row must be added to a non-table value |
| LogTable.SavedRowIsCounted | log_table.php:75-76 | a row saved because it had values is always counted: the count after the save is the old length plus one |
| LogTable.AppendOnlyHistory | log_table.php:69-82 | over any run of saves, the stored rows stay an unchanged prefix, followed by one sanitised row per submission that had values, in order |
| LogTable.SavedRowIsRecognised | log_table.php:216-221 | after a row with values is saved, the saved value ends with that sanitised row, so a resubmission of it is dropped |
| LogTable.FieldsOfType | log_table.php:255-268 | a name is listed exactly when a registered field of that name uses this element type, and no more names than fields are listed |
| LogTable.FieldsOfTypeDistinct | log_table.php:260-263 | when registry names are distinct, the listed log-table field names are distinct |
| LogTable.OptionColumns | log_table.php:177-190 | an option is a column exactly when its key is not a non-column name; the columns have unique keys when the options do |
| LogTable.PutAllIntoEmpty | log_table.php:187 | assigning entries with distinct keys into an empty array, one by one, lays them out in the order given |
| LogTable.FreshColumns | log_table.php:177-190 | on a fresh adapter the columns are exactly the column options, with their titles, in option order |
| LogTable.ReadOnly | log_table.php:114 | the field is read-only exactly when it has a `readonly` attribute whose value is the string `readonly` |
| LogTable.PostRow | log_table.php:242-248 | without a submission for the field the row is empty; with one, it has the submitted row's columns in order, each cell cleaned |
| LogTable.LogTable.constructor | log_table.php:42-47 | the type is named `log-table`, its title defaults to `Log Table` when the given title is PHP-empty, and it starts with no columns and no rows |
| LogTable.LogTable.TableFields | log_table.php:255-268 | the loop lists exactly `FieldsOfType(registry, "log-table")`, in registry order |
| LogTable.LogTable.SaveData | log_table.php:69-82 | only submitted log-table fields are rewritten, each to its stored table with the sanitised row appended when the row has values; every other entry and the key set are unchanged; failure names the first field whose non-table stored value would have to take a row |
| LogTable.LogTable.SetupColumns | log_table.php:177-190 | the columns become the old columns with every column option assigned in option order |
| LogTable.LogTable.SetupValue | log_table.php:213-225 | the rows come from the record when the field is in the request, else from the field's own value, and a non-array gives no rows; the request loses this field's entry exactly when the last loaded row equals the sanitised submitted row |
| LogTable.LogTable.SetupField | log_table.php:197-202 | the adapter holds the field, its columns are set up from the field's options, and its rows and the request are set up as in `SetupValue` |
| LogTable.LogTable.EditableRow | log_table.php:112-131 | no row exactly when the field is read-only and the user is not an editor; otherwise the row's index is the row count plus one, with one input per column holding the sanitised submitted cell or `""` |
| LogTable.LogTable.TableBody | log_table.php:138-155 | no rows exactly when the row count is 0; otherwise every stored element, a trailing empty one included, is shown at its index with one cell per column, the element's cell or `""` |

## Left out

- Hook registration (`add_filter`, `apply_filters`) is left out. Each filter's result is a parameter: `isPublic`, `nonColumns`, and the `rendered` display.
- Markup is left out: the `sprintf` templates, `display_value`, `editable_table`, `table_header` (which only formats the columns array) and the log table's `form_element_html` (which assigns that markup to the output). The model gives the structure of the body and the editable row instead.
- `serialize` and `maybe_unserialize` are left out. A stored value is already decoded (`FieldValue`), and `Encoded(...)` stands for the serialized string.
- LogTable.StoredTable: `save_data` tests the raw stored string for emptiness; the model tests the decoded value. The two differ only for a serialized scalar that is falsy, such as a serialized `""`.
- `FILTER_SANITIZE_STRING` is left out; it is the `clean` parameter, applied to each cell.
- `filter_input` of the record id, `Participants_Db::get_participant` and the user-role check are external. They are the `saved`/`record` maps (empty when there is no record) and `isEditor`.
- The `$_POST` superglobal is an explicit request map passed in and returned. The order of request and record entries is not modelled; option, attribute, selector and row arrays keep their order.
- The `wp_cache_get`/`wp_cache_add` pair in `table_fields` is left out. The read uses group `pdb-custom_fields`, while the add stores the label string in the default group, so the read never returns a stored list. The list is computed every time, as `TableFields` does.
- The base `display_value` (pdb_custom_field.php:125) reads an undefined variable. Its output is the `rendered` parameter of `DisplayFormElement`.
- `field_definition` (pdb_custom_field.php:134-137) is a registry lookup the core never calls.
- LogTable.LogTable.SaveData: requires each submitted log-table field to be an array of cells, as the editable row's `<field>[<column>]` inputs always submit it. A scalar submission, which `filter_var_array` rejects, is not modelled.
- LogTable.LogTable.SetupValue: has the same array-of-cells requirement. Calling `end()` on a non-array record value is treated as no match.
- LogTable.LogTable.EditableRow: has the same array-of-cells requirement for the request entry.
- LogTable.SaveField: appending to a non-empty non-array stored value is a failure, as PHP 8 raises an error; PHP 7 only warns for a non-string scalar.
- LogTable.CellText: a scalar stored element shows `""` in every column. PHP's string-offset read of a string element under an integer column key is not modelled.
- Floating-point stored values are left out. `in_array`'s loose comparison of integer keys with strings is left out: non-column names match by exact key. Null option and attribute values, which `isset` treats as unset, are left out.
- PHP's conversion of a decimal-string key to an integer key is left out: keys are taken as already normalised.
- LogTable.LogTable.EditableRow: the columns start as the empty array, while at log_table.php:29 they start as `null`, and `setup_columns` assigns them only when some option is a column. For a field with no column option, `array_keys($this->columns)` at log_table.php:121 fails with a TypeError on PHP 8; the model gives an editable row with no inputs.
- LogTable.LogTable.TableBody: the same `null` columns make `table_body` fail at log_table.php:149 when there are rows; the model gives rows with no cells. A body row's index is the element's position, while log_table.php:147 shows the stored array's key. The two agree when the stored array is a list, with keys 0, 1, … in order; `save_data` keeps a table a list, since it starts from the empty array and only appends. Stored arrays with other keys are not modelled, since a loaded table is a sequence of elements.
- For the log table, `display_form_element` runs `LogTable.SetupField` in place of the base set-up. No single member combines that dispatch with the log table's set-up.
