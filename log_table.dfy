/**
 * The log-table field type: a field whose value is a sequence of rows keyed
 * by column, to which each save may append exactly one new row and in which
 * stored rows are never edited.
 */
module LogTable {
  import opened PhpArray
  import opened CustomField

  datatype Result<T> = Ok(value: T) | Err(error: SaveError)

  /** A log-table field whose stored value is a non-empty non-array cannot take a row. */
  datatype SaveError = NotATable(field: string)

  // ---------------------------------------------------------------------
  // Row values
  // ---------------------------------------------------------------------

  /** `implode('', $row)`: the cells of a row, concatenated in order. */
  function Implode(row: seq<Entry<string>>): string {
    if |row| == 0 then "" else row[0].value + Implode(row[1..])
  }

  lemma {:induction false} ImplodeEmpty(row: seq<Entry<string>>)
    ensures Implode(row) == "" <==> forall i :: 0 <= i < |row| ==> row[i].value == ""
  {
    if |row| > 0 {
      ImplodeEmpty(row[1..]);
      assert forall i :: 1 <= i < |row| ==> row[i] == row[1..][i - 1];
    }
  }

  /** `array_has_values`: a submitted row has a value when some cell is not the empty string. */
  function HasValues(row: Row): (r: bool)
    ensures r <==> exists i :: 0 <= i < |row| && row[i].value != ""
  {
    ImplodeEmpty(row);
    |Implode(row)| > 0
  }

  /** `filter_var_array`: every cell cleaned by the sanitiser, the columns kept. */
  function Sanitize(row: Row, clean: string -> string): (r: Row)
    ensures |r| == |row|
    ensures forall i :: 0 <= i < |row| ==> r[i] == Entry(row[i].key, clean(row[i].value))
  {
    if |row| == 0 then []
    else
      var rest := Sanitize(row[1..], clean);
      assert forall i :: 0 <= i < |rest| ==> rest[i].key == row[i + 1].key;
      [Entry(row[0].key, clean(row[0].value))] + rest
  }

  /**
   * `value_row_count`: the number of stored rows, not counting a last element
   * that PHP's `empty()` holds empty (an empty array, "", "0", 0, false or
   * null). A row of blank cells is an array with entries and is counted.
   */
  function RowCount(values: seq<Item>): (r: nat)
    ensures r <= |values| <= r + 1
    ensures r < |values| <==> |values| > 0 && ItemEmpty(values[|values| - 1])
  {
    if |values| > 0 && ItemEmpty(values[|values| - 1]) then |values| - 1 else |values|
  }

  // ---------------------------------------------------------------------
  // Saving a submission
  // ---------------------------------------------------------------------

  /** A missing or empty stored value loads as the empty table. */
  function Loaded(v: FieldValue): (r: FieldValue)
    ensures FieldValueEmpty(v) ==> r == Table([])
    ensures !FieldValueEmpty(v) ==> r == v
    ensures r.Plain? ==> !ScalarEmpty(r.scalar)
  {
    if FieldValueEmpty(v) then Table([]) else v
  }

  /** The table loaded for field `name` from the stored record. */
  function StoredTable(saved: map<string, FieldValue>, name: string): (r: FieldValue)
    ensures name in saved && !FieldValueEmpty(saved[name]) ==> r == saved[name]
    ensures name !in saved || FieldValueEmpty(saved[name]) ==> r == Table([])
  {
    if name in saved then Loaded(saved[name]) else Table([])
  }

  /**
   * The value a save stores for one log-table field: the loaded table with the
   * sanitised row appended when the row has a value, the loaded value as it was
   * otherwise; None when a row has to be appended to a value that is not a table.
   */
  function SaveField(stored: FieldValue, submitted: Row, clean: string -> string): (r: Option<FieldValue>)
    ensures r.None? <==> HasValues(submitted) && stored.Plain?
    ensures r.Some? && !HasValues(submitted) ==> r.value == stored
    ensures r.Some? && HasValues(submitted) ==>
              && r.value.Table?
              && |r.value.items| == |stored.items| + 1
              && r.value.items[..|stored.items|] == stored.items
              && r.value.items[|stored.items|] == RowItem(Sanitize(submitted, clean))
  {
    if !HasValues(submitted) then Some(stored)
    else match stored
      case Plain(_) => None
      case Table(items) => Some(Table(items + [RowItem(Sanitize(submitted, clean))]))
  }

  /** A row saved because it had a value is counted: it is an array with at least one cell. */
  lemma SavedRowIsCounted(items: seq<Item>, submitted: Row, clean: string -> string)
    requires HasValues(submitted)
    ensures SaveField(Table(items), submitted, clean).Some?
    ensures RowCount(SaveField(Table(items), submitted, clean).value.items) == |items| + 1
  {
  }

  /** The rows a run of submissions adds: each one with a value, sanitised, in order. */
  function NewRows(subs: seq<Row>, clean: string -> string): seq<Item> {
    if subs == [] then []
    else (if HasValues(subs[0]) then [RowItem(Sanitize(subs[0], clean))] else [])
         + NewRows(subs[1..], clean)
  }

  /** Saves a run of submissions, each save loading what the previous one stored. */
  function SaveEach(stored: FieldValue, subs: seq<Row>, clean: string -> string): Option<FieldValue>
    decreases |subs|
  {
    if subs == [] then Some(stored)
    else match SaveField(Loaded(stored), subs[0], clean)
      case None => None
      case Some(v) => SaveEach(v, subs[1..], clean)
  }

  /**
   * Append-only history: whatever is submitted, the stored rows stay an
   * unchanged prefix, followed by one new row per submission that had a value.
   */
  lemma {:induction false} AppendOnlyHistory(items: seq<Item>, subs: seq<Row>, clean: string -> string)
    ensures SaveEach(Table(items), subs, clean) == Some(Table(items + NewRows(subs, clean)))
    ensures |NewRows(subs, clean)| <= |subs|
    decreases |subs|
  {
    if subs != [] {
      var next := SaveField(Table(items), subs[0], clean).value;
      assert Loaded(Table(items)) == Table(items);
      assert next == Table(next.items);
      assert SaveEach(Table(items), subs, clean) == SaveEach(next, subs[1..], clean);
      AppendOnlyHistory(next.items, subs[1..], clean);
      var head := if HasValues(subs[0]) then [RowItem(Sanitize(subs[0], clean))] else [];
      assert next.items == items + head;
      assert NewRows(subs, clean) == head + NewRows(subs[1..], clean);
      assert items + NewRows(subs, clean) == next.items + NewRows(subs[1..], clean);
    } else {
      assert items + NewRows(subs, clean) == items;
    }
  }

  /** A field the save rejects: submitted, with a value, over a stored non-table. */
  predicate Rejects(post: map<string, PostValue>, saved: map<string, FieldValue>, f: string, clean: string -> string)
    requires f in post ==> post[f].Cells?
  {
    f in post && SaveField(StoredTable(saved, f), post[f].row, clean).None?
  }

  /** The entry a save leaves for a submitted log-table field it does not reject. */
  function SavedEntry(post: map<string, PostValue>, saved: map<string, FieldValue>, f: string, clean: string -> string): PostValue
    requires f in post && post[f].Cells?
  {
    match SaveField(StoredTable(saved, f), post[f].row, clean)
    case Some(v) => Encoded(v)
    case None => post[f]
  }

  /** Field names in the host's registry are unique. */
  ghost predicate Distinct(names: seq<string>) {
    forall i, j :: 0 <= i < j < |names| ==> names[i] != names[j]
  }

  /** A field definition in the host's registry: its name and the element type it uses. */
  datatype Registered = Registered(name: string, formElement: string)

  /** The names of the registered fields that use element type `typeName`, in registry order. */
  function FieldsOfType(registry: seq<Registered>, typeName: string): (r: seq<string>)
    ensures forall n :: n in r <==> exists i :: 0 <= i < |registry| && registry[i].name == n && registry[i].formElement == typeName
    ensures |r| <= |registry|
  {
    if registry == [] then []
    else
      var rest := FieldsOfType(registry[1..], typeName);
      assert forall i :: 1 <= i < |registry| ==> registry[i] == registry[1..][i - 1];
      (if registry[0].formElement == typeName then [registry[0].name] else []) + rest
  }

  lemma {:induction false} FieldsOfTypeDistinct(registry: seq<Registered>, typeName: string)
    requires forall i, j :: 0 <= i < j < |registry| ==> registry[i].name != registry[j].name
    ensures Distinct(FieldsOfType(registry, typeName))
  {
    if registry != [] {
      var rest := registry[1..];
      assert forall i :: 1 <= i < |registry| ==> registry[i] == rest[i - 1];
      FieldsOfTypeDistinct(rest, typeName);
      assert registry[0].name !in FieldsOfType(rest, typeName);
    }
  }

  // ---------------------------------------------------------------------
  // Columns
  // ---------------------------------------------------------------------

  /** The options that are table columns: every option whose key is not a non-column name, in order. */
  function OptionColumns(options: seq<Entry<string>>, nonColumns: seq<Key>): (r: seq<Entry<string>>)
    ensures forall e :: e in r <==> e in options && e.key !in nonColumns
    ensures UniqueKeys(options) ==> UniqueKeys(r)
  {
    if options == [] then []
    else
      var init := options[..|options| - 1];
      var last := options[|options| - 1];
      assert options == init + [last];
      var r := OptionColumns(init, nonColumns);
      assert UniqueKeys(options) ==> forall e :: e in init ==> e.key != last.key;
      r + (if last.key !in nonColumns then [last] else [])
  }

  /** `$a[$k] = $v` for every entry of `b`, in order. */
  function PutAll<V>(a: PArray<V>, b: seq<Entry<V>>): PArray<V> {
    if b == [] then a
    else Put(PutAll(a, b[..|b| - 1]), b[|b| - 1].key, b[|b| - 1].value)
  }

  /** Putting distinct new keys into an empty array lays them out as given. */
  lemma {:induction false} PutAllIntoEmpty<V>(b: PArray<V>)
    ensures PutAll([], b) == b
  {
    if b != [] {
      var init: PArray<V> := b[..|b| - 1];
      var last := b[|b| - 1];
      PutAllIntoEmpty(init);
      assert !HasKey(init, last.key);
      assert b == init + [last];
    }
  }

  /** One more option considered by `setup_columns` is one more put, or none. */
  lemma ColumnsStep(start: PArray<string>, options: seq<Entry<string>>, i: nat, nonColumns: seq<Key>)
    requires i < |options|
    ensures PutAll(start, OptionColumns(options[..i + 1], nonColumns))
            == if options[i].key !in nonColumns
               then Put(PutAll(start, OptionColumns(options[..i], nonColumns)), options[i].key, options[i].value)
               else PutAll(start, OptionColumns(options[..i], nonColumns))
  {
    var prefix := options[..i + 1];
    assert prefix[..|prefix| - 1] == options[..i];
    assert prefix[|prefix| - 1] == options[i];
    var cols := OptionColumns(options[..i], nonColumns);
    if options[i].key !in nonColumns {
      var b := cols + [options[i]];
      assert OptionColumns(prefix, nonColumns) == b;
      assert b[..|b| - 1] == cols;
    } else {
      assert OptionColumns(prefix, nonColumns) == cols;
    }
  }

  // ---------------------------------------------------------------------
  // Rendering structure
  // ---------------------------------------------------------------------

  /** A text-line input of the editable row, named `<field>[<column>]`. */
  datatype Input = Input(column: Key, value: string)

  /** The editable trailing row: its data-index and one input per column. */
  datatype EditRow = EditRow(index: nat, inputs: seq<Input>)

  /** A stored row as displayed: its index and one cell per column. */
  datatype BodyRow = BodyRow(index: nat, cells: seq<string>)

  /** The text a stored element shows in a column: the cell when it is set, "" otherwise. */
  function CellText(item: Item, column: Key): string {
    match item
    case RowItem(row) => (match Get(row, column) case Some(t) => t case None => "")
    case ScalarItem(_) => ""
  }

  /** The field is read-only when its 'readonly' attribute is exactly "readonly". */
  function ReadOnly(attributes: PArray<string>): (r: bool)
    ensures r <==> exists i :: 0 <= i < |attributes| && attributes[i] == Entry(StrKey("readonly"), "readonly")
  {
    Get(attributes, StrKey("readonly")) == Some("readonly")
  }

  /** `post_data_array`: the sanitised submitted row for the field, or the empty row. */
  function PostRow(post: map<string, PostValue>, name: string, clean: string -> string): (r: Row)
    requires name in post ==> post[name].Cells?
    ensures name !in post ==> r == []
    ensures name in post ==> |r| == |post[name].row|
    ensures name in post ==> forall i :: 0 <= i < |r| ==>
              r[i] == Entry(post[name].row[i].key, clean(post[name].row[i].value))
  {
    if name in post then Sanitize(post[name].row, clean) else []
  }

  /** The elements of a loaded value: an array's elements, nothing for a non-array. */
  function Elements(v: FieldValue): seq<Item> {
    match v
    case Table(items) => items
    case Plain(_) => []
  }

  /** The value's last element is the row `row` (PHP's `end($v) === $row`). */
  predicate EndsWith(v: FieldValue, row: Row) {
    v.Table? && |v.items| > 0 && v.items[|v.items| - 1] == RowItem(row)
  }

  /**
   * A save and the next set-up fit together: once a row with a value has been
   * saved, the same submission is recognised as a resubmission of the last row.
   */
  lemma SavedRowIsRecognised(stored: FieldValue, submitted: Row, clean: string -> string)
    requires HasValues(submitted)
    requires SaveField(stored, submitted, clean).Some?
    ensures EndsWith(SaveField(stored, submitted, clean).value, Sanitize(submitted, clean))
  {
  }

  /** The log-table form-element type. */
  class LogTable {
    const core: CustomField
    var columns: PArray<string>
    var values: seq<Item>

    constructor (title: string)
      ensures fresh(core) && core.kind == LogTableKind && core.name == "log-table"
      ensures core.title == (if EmptyString(title) then "Log Table" else title)
      ensures core.field == null && columns == [] && values == []
    {
      core := new CustomField(LogTableKind, "log-table", if EmptyString(title) then "Log Table" else title);
      columns := [];
      values := [];
    }

    /**
     * `table_fields`: the registered fields that use this element type.
     */
    method TableFields(registry: seq<Registered>) returns (names: seq<string>)
      ensures names == FieldsOfType(registry, core.name)
    {
      names := [];
      var i := 0;
      while i < |registry|
        invariant 0 <= i <= |registry|
        invariant FieldsOfType(registry, core.name) == names + FieldsOfType(registry[i..], core.name)
      {
        assert registry[i..][1..] == registry[i + 1..];
        if registry[i].formElement == core.name {
          names := names + [registry[i].name];
        }
        i := i + 1;
      }
    }

    /**
     * `save_data`: for each log-table field present in the submission, the
     * stored table with the submitted row appended when it has a value, encoded
     * in place of the row; every other entry is returned as it came. A stored
     * value that is not a table and would have to take a row stops the save.
     */
    method SaveData(post: map<string, PostValue>, saved: map<string, FieldValue>,
                    tableFields: seq<string>, clean: string -> string)
      returns (r: Result<map<string, PostValue>>)
      requires Distinct(tableFields)
      requires forall f :: f in tableFields && f in post ==> post[f].Cells?
      ensures r.Ok? <==> forall f :: f in tableFields ==> !Rejects(post, saved, f, clean)
      ensures r.Ok? ==> r.value.Keys == post.Keys
      ensures r.Ok? ==> forall k :: k in post && k !in tableFields ==> r.value[k] == post[k]
      ensures r.Ok? ==> forall k :: k in post && k in tableFields ==> r.value[k] == SavedEntry(post, saved, k, clean)
      ensures r.Err? ==> exists i :: 0 <= i < |tableFields| && tableFields[i] == r.error.field
                                  && Rejects(post, saved, tableFields[i], clean)
                                  && forall j :: 0 <= j < i ==> !Rejects(post, saved, tableFields[j], clean)
    {
      var current := post;
      var i := 0;
      while i < |tableFields|
        invariant 0 <= i <= |tableFields|
        invariant current.Keys == post.Keys
        invariant forall k :: k in post && k !in tableFields[..i] ==> current[k] == post[k]
        invariant forall k :: k in post && k in tableFields[..i] ==> current[k] == SavedEntry(post, saved, k, clean)
        invariant forall j :: 0 <= j < i ==> !Rejects(post, saved, tableFields[j], clean)
      {
        var name := tableFields[i];
        assert name !in tableFields[..i];
        if name in current {
          var tableValue := if name in saved && !FieldValueEmpty(saved[name]) then saved[name] else Table([]);
          var submitted := current[name].row;
          assert current[name] == post[name] && tableValue == StoredTable(saved, name);
          if HasValues(submitted) {
            match tableValue
            case Plain(_) =>
              assert Rejects(post, saved, tableFields[i], clean);
              return Err(NotATable(name));
            case Table(items) =>
              tableValue := Table(items + [RowItem(Sanitize(submitted, clean))]);
          }
          current := current[name := Encoded(tableValue)];
        }
        assert tableFields[..i + 1] == tableFields[..i] + [name];
        i := i + 1;
      }
      assert tableFields[..i] == tableFields;
      return Ok(current);
    }

    /**
     * `setup_columns`: puts every option that is not a non-column name into
     * the columns, in option order. Columns already present from an earlier
     * field are kept, as the source never clears them.
     */
    method SetupColumns(nonColumns: seq<Key>)
      requires core.field != null
      modifies this`columns
      ensures columns == PutAll(old(columns), OptionColumns(core.field.options, nonColumns))
    {
      var options := core.field.options;
      var i := 0;
      while i < |options|
        invariant 0 <= i <= |options|
        invariant columns == PutAll(old(columns), OptionColumns(options[..i], nonColumns))
      {
        ColumnsStep(old(columns), options, i, nonColumns);
        if options[i].key !in nonColumns {
          columns := Put(columns, options[i].key, options[i].value);
        }
        i := i + 1;
      }
      assert options[..i] == options;
    }

    /**
     * `setup_value`: loads the stored rows (from the record when the field is
     * in the request), drops the request's row when it repeats the last stored
     * row, and keeps the rows only when the loaded value is an array.
     */
    method SetupValue(request: map<string, PostValue>, record: map<string, FieldValue>, clean: string -> string)
      returns (request': map<string, PostValue>)
      requires core.field != null
      requires core.field.name in request ==> request[core.field.name].Cells?
      modifies this`values
      ensures var name := core.field.name;
              var loaded := if name !in request then core.field.value
                            else if name in record then record[name] else Table([]);
              && values == Elements(loaded)
              && request' == (if name in request && EndsWith(loaded, Sanitize(request[name].row, clean))
                              then request - {name} else request)
    {
      var name := core.field.name;
      var loaded := core.field.value;
      request' := request;
      if name in request {
        loaded := if name in record then record[name] else Table([]);
        if loaded.Table? && |loaded.items| > 0
           && loaded.items[|loaded.items| - 1] == RowItem(Sanitize(request[name].row, clean)) {
          request' := request - {name};
        }
      }
      values := if loaded.Table? then loaded.items else [];
    }

    /** `setup_field`: remembers the field, then sets up its columns and its rows. */
    method SetupField(f: FieldObject, request: map<string, PostValue>, record: map<string, FieldValue>,
                      nonColumns: seq<Key>, clean: string -> string)
      returns (request': map<string, PostValue>)
      requires f.name in request ==> request[f.name].Cells?
      modifies this`columns, this`values, core`field
      ensures core.field == f
      ensures columns == PutAll(old(columns), OptionColumns(f.options, nonColumns))
      ensures var loaded := if f.name !in request then f.value
                            else if f.name in record then record[f.name] else Table([]);
              && values == Elements(loaded)
              && request' == (if f.name in request && EndsWith(loaded, Sanitize(request[f.name].row, clean))
                              then request - {f.name} else request)
    {
      core.SetupField(f);
      SetupColumns(nonColumns);
      request' := SetupValue(request, record, clean);
    }

    /**
     * `editable_row`: nothing for a read-only field and a user who is not an
     * editor; otherwise one input per column, filled from the request, in a
     * row indexed one past the counted rows.
     */
    function EditableRow(request: map<string, PostValue>, isEditor: bool, clean: string -> string): (r: Option<EditRow>)
      reads this, core, core.field
      requires core.field != null
      requires core.field.name in request ==> request[core.field.name].Cells?
      ensures r.None? <==> ReadOnly(core.field.attributes) && !isEditor
      ensures r.Some? ==> r.value.index == RowCount(values) + 1 && |r.value.inputs| == |columns|
      ensures r.Some? ==> forall i :: 0 <= i < |columns| ==>
                r.value.inputs[i] == Input(columns[i].key, CellText(RowItem(PostRow(request, core.field.name, clean)), columns[i].key))
    {
      if ReadOnly(core.field.attributes) && !isEditor then None
      else
        var submitted := PostRow(request, core.field.name, clean);
        var cols := columns;
        Some(EditRow(RowCount(values) + 1,
                     seq(|cols|, i requires 0 <= i < |cols| =>
                           Input(cols[i].key, CellText(RowItem(submitted), cols[i].key)))))
    }

    /**
     * `table_body`: nothing when no row is counted; otherwise every stored
     * element, a trailing empty one included, with one cell per column.
     */
    function TableBody(): (r: seq<BodyRow>)
      reads this
      ensures RowCount(values) == 0 <==> r == []
      ensures r != [] ==> |r| == |values|
      ensures forall i :: 0 <= i < |r| ==> r[i].index == i && |r[i].cells| == |columns|
      ensures forall i, j :: 0 <= i < |r| && 0 <= j < |columns| ==> r[i].cells[j] == CellText(values[i], columns[j].key)
    {
      if RowCount(values) == 0 then []
      else seq(|values|, i requires 0 <= i < |values| reads this => BodyRowAt(i))
    }

    /** The stored element at `i` as displayed: one cell per column. */
    function BodyRowAt(i: nat): BodyRow
      reads this
      requires i < |values|
    {
      var item := values[i];
      var cols := columns;
      BodyRow(i, seq(|cols|, j requires 0 <= j < |cols| => CellText(item, cols[j].key)))
    }
  }

  /** From a fresh adapter, the columns are exactly the column options, in option order. */
  lemma FreshColumns(options: PArray<string>, nonColumns: seq<Key>)
    ensures PutAll([], OptionColumns(options, nonColumns)) == OptionColumns(options, nonColumns)
  {
    var cols: PArray<string> := OptionColumns(options, nonColumns);
    PutAllIntoEmpty(cols);
  }
}
