/** The generic transaction table: looking a cell's value up by a dotted key,
    rendering the `status` column as a coloured badge, and laying the data out
    as one row per record and one cell per column. */
module Table {
  import opened Js
  import opened Text
  import opened Status
  import React

  /** A column: the key its cells are looked up by, and its header text. */
  datatype Column = Column(key: string, title: string)

  /** What `renderValue` gives for one cell: the value itself, which React
      then draws as `React.Child` says (nothing for a boolean, a throw for a
      plain object), a status badge, or the `TypeError` the status renderer
      throws on a value that is not a string. */
  datatype Cell = Plain(value: Value) | Badge(tone: Tone, caption: string) | TypeError

  /** The table body: rows of cells, the single placeholder cell spanning
      every column, or a render abandoned because some cell threw. */
  datatype Body = Rows(cells: seq<seq<Cell>>) | Placeholder(colSpan: nat, text: string) | Crashed

  const StatusKey := "status"
  const NoData := "No data available"

  // ---------------------------------------------------------------------------
  // getValue

  /** One step of the `reduce`: `acc?.[k]`. */
  function Step(acc: Option<Value>, k: string): Option<Value> {
    OptProp(acc, k)
  }

  /** The `reduce` over the key's segments, left to right. */
  function Walk(acc: Option<Value>, path: seq<string>): Option<Value>
    decreases |path|
  {
    if path == [] then acc else Walk(Step(acc, path[0]), path[1..])
  }

  /** `getValue(obj, key)`: follow the dot-separated segments of `key` from
      `row`, and default to `""` when the walk ends on `undefined` or `null`. */
  function GetValue(row: Value, key: string): (r: Value)
    ensures r != Null
  {
    Coalesce(Walk(Some(row), Split(key, '.')), Str(""))
  }

  /** Once the walk has reached `undefined` it stays there. */
  lemma {:induction false} WalkFromNone(path: seq<string>)
    ensures Walk(None, path) == None
  {
    if path != [] {
      WalkFromNone(path[1..]);
    }
  }

  /** Walking a path in two pieces is walking it whole. */
  lemma {:induction false} WalkAppend(acc: Option<Value>, p: seq<string>, q: seq<string>)
    ensures Walk(acc, p + q) == Walk(Walk(acc, p), q)
    decreases p
  {
    if p == [] {
      assert p + q == q;
    } else {
      assert (p + q)[1..] == p[1..] + q;
      WalkAppend(Step(acc, p[0]), p[1..], q);
    }
  }

  /** A key without dots reads one own field: the field's value when it is
      present and not `null` (so `0`, `false` and `""` come back as they are),
      `""` otherwise. */
  lemma GetValueField(row: Value, key: string)
    requires '.' !in key
    ensures HasOwn(row, key) && row.fields[key] != Null ==> GetValue(row, key) == row.fields[key]
    ensures !(HasOwn(row, key) && row.fields[key] != Null) ==> GetValue(row, key) == Str("")
  {
    SplitNoSeparator(key, '.');
    assert Walk(Some(row), [key]) == Walk(Prop(row, key), [key][1..]);
    assert [key][1..] == [];
  }

  /** A two-segment key `a.b` reads field `b` of field `a`, defaulting to `""`. */
  lemma GetValueNested(row: Value, a: string, b: string)
    requires '.' !in a && '.' !in b
    ensures GetValue(row, a + "." + b) == Coalesce(OptProp(Prop(row, a), b), Str(""))
  {
    SplitJoin([a, b], '.');
    assert Join([a, b], '.') == a + "." + b;
    assert Walk(Some(row), [a, b]) == Walk(Prop(row, a), [a, b][1..]);
    assert [a, b][1..] == [b];
    assert Walk(Prop(row, a), [b]) == Walk(OptProp(Prop(row, a), b), [b][1..]);
    assert [b][1..] == [];
  }

  /** If the walk reaches `undefined` or `null` at any segment before the last,
      the lookup yields `""`. */
  lemma GetValueBrokenPath(row: Value, key: string, i: nat)
    requires i < |Split(key, '.')|
    requires Nullish(Walk(Some(row), Split(key, '.')[..i]))
    ensures GetValue(row, key) == Str("")
  {
    var path := Split(key, '.');
    assert path == path[..i] + path[i..];
    WalkAppend(Some(row), path[..i], path[i..]);
    var mid := Walk(Some(row), path[..i]);
    assert Step(mid, path[i]) == None;
    assert path[i..][1..] == path[i + 1..];
    WalkFromNone(path[i + 1..]);
  }

  // ---------------------------------------------------------------------------
  // renderValue

  /** `renderValue(col, value)`. In the status column a string is classified by
      its lower-cased text and labelled with its upper-cased text; an
      unrecognised status is gray and is labelled `UNKNOWN` when its label is
      empty. `null` takes the default branch with no label. Any other kind of
      value makes `value.toLowerCase()` throw. Other columns show the value
      unchanged. */
  function RenderValue(col: Column, v: Value): (r: Cell)
    ensures col.key != StatusKey ==> r == Plain(v)
    ensures col.key == StatusKey ==> (r.TypeError? <==> !(v.Str? || v.Null?))
  {
    if col.key != StatusKey then Plain(v)
    else
      match v
      case Str(s) =>
        var caption := ToUpper(s);
        (match ParseStatus(ToLower(s))
         case Success => Badge(Green, caption)
         case Failed => Badge(Red, caption)
         case Pending => Badge(Yellow, caption)
         case Other(_) => Badge(Gray, if caption == "" then "UNKNOWN" else caption))
      case Null => Badge(Gray, "UNKNOWN")
      case _ => TypeError
  }

  /** The status style is chosen case-insensitively: any casing of `success`,
      `failed` or `pending` selects that colour, everything else is gray. */
  lemma StatusToneIgnoresCase(col: Column, s: string)
    requires col.key == StatusKey
    ensures RenderValue(col, Str(s)).Badge?
    ensures RenderValue(col, Str(s)).tone ==
      if EqualsIgnoringCase(s, "success") then Green
      else if EqualsIgnoringCase(s, "failed") then Red
      else if EqualsIgnoringCase(s, "pending") then Yellow
      else Gray
  {
    ToLowerMatches(s, "success");
    ToLowerMatches(s, "failed");
    ToLowerMatches(s, "pending");
  }

  /** A string equal to the lower-case word `w` up to case lower-cases to `w`
      and upper-cases to the upper-case form of `w`. */
  lemma CaseVariant(s: string, w: string)
    requires AllLower(w) && EqualsIgnoringCase(s, w)
    ensures ToLower(s) == w && ToUpper(s) == ToUpper(w)
  {
    ToLowerMatches(s, w);
    ToUpperOfToLower(s);
  }

  lemma UpperSuccess()
    ensures ToUpper("success") == "SUCCESS"
  {
    var r := ToUpper("success");
    assert r[0] == 'S' && r[1] == 'U' && r[2] == 'C' && r[3] == 'C' && r[4] == 'E' && r[5] == 'S' && r[6] == 'S';
  }

  lemma UpperFailed()
    ensures ToUpper("failed") == "FAILED"
  {
    var r := ToUpper("failed");
    assert r[0] == 'F' && r[1] == 'A' && r[2] == 'I' && r[3] == 'L' && r[4] == 'E' && r[5] == 'D';
  }

  lemma UpperPending()
    ensures ToUpper("pending") == "PENDING"
  {
    var r := ToUpper("pending");
    assert r[0] == 'P' && r[1] == 'E' && r[2] == 'N' && r[3] == 'D' && r[4] == 'I' && r[5] == 'N' && r[6] == 'G';
  }

  /** Any casing of `success` lower-cases to `success` and upper-cases to `SUCCESS`. */
  lemma SuccessForms(s: string)
    requires EqualsIgnoringCase(s, "success")
    ensures ToLower(s) == "success" && ToUpper(s) == "SUCCESS"
  {
    CaseVariant(s, "success");
    UpperSuccess();
  }

  /** Any casing of `failed` lower-cases to `failed` and upper-cases to `FAILED`. */
  lemma FailedForms(s: string)
    requires EqualsIgnoringCase(s, "failed")
    ensures ToLower(s) == "failed" && ToUpper(s) == "FAILED"
  {
    CaseVariant(s, "failed");
    UpperFailed();
  }

  /** Any casing of `pending` lower-cases to `pending` and upper-cases to `PENDING`. */
  lemma PendingForms(s: string)
    requires EqualsIgnoringCase(s, "pending")
    ensures ToLower(s) == "pending" && ToUpper(s) == "PENDING"
  {
    CaseVariant(s, "pending");
    UpperPending();
  }

  /** A recognised status, in any casing, is labelled with its keyword in capitals. */
  lemma StatusCaptionKnown(col: Column, s: string)
    requires col.key == StatusKey
    ensures EqualsIgnoringCase(s, "success") ==> RenderValue(col, Str(s)) == Badge(Green, "SUCCESS")
    ensures EqualsIgnoringCase(s, "failed") ==> RenderValue(col, Str(s)) == Badge(Red, "FAILED")
    ensures EqualsIgnoringCase(s, "pending") ==> RenderValue(col, Str(s)) == Badge(Yellow, "PENDING")
  {
    if EqualsIgnoringCase(s, "success") {
      SuccessForms(s);
    }
    if EqualsIgnoringCase(s, "failed") {
      FailedForms(s);
    }
    if EqualsIgnoringCase(s, "pending") {
      PendingForms(s);
    }
  }

  /** An unrecognised status is labelled with its upper-cased text, falling
      back to `UNKNOWN` only when that text is empty. */
  lemma StatusCaptionOther(col: Column, s: string)
    requires col.key == StatusKey
    requires !EqualsIgnoringCase(s, "success") && !EqualsIgnoringCase(s, "failed")
    requires !EqualsIgnoringCase(s, "pending")
    ensures RenderValue(col, Str(s)) == Badge(Gray, if s == "" then "UNKNOWN" else ToUpper(s))
  {
    StatusToneIgnoresCase(col, s);
  }

  // ---------------------------------------------------------------------------
  // rows and cells

  /** The header row: one label per column, in column order. */
  function Header(columns: seq<Column>): (r: seq<string>)
    ensures |r| == |columns|
    ensures forall j :: 0 <= j < |columns| ==> r[j] == columns[j].title
  {
    if columns == [] then [] else [columns[0].title] + Header(columns[1..])
  }

  /** One row: a cell per column, each the rendered lookup of that column's key. */
  function RenderRow(row: Value, columns: seq<Column>): (r: seq<Cell>)
    ensures |r| == |columns|
    ensures forall j :: 0 <= j < |columns| ==>
      r[j] == RenderValue(columns[j], GetValue(row, columns[j].key))
  {
    if columns == [] then []
    else [RenderValue(columns[0], GetValue(row, columns[0].key))] + RenderRow(row, columns[1..])
  }

  /** All rows, in data order. */
  function RenderRows(data: seq<Value>, columns: seq<Column>): (r: seq<seq<Cell>>)
    ensures |r| == |data|
    ensures forall i :: 0 <= i < |data| ==> r[i] == RenderRow(data[i], columns)
  {
    if data == [] then []
    else
      var rest := RenderRows(data[1..], columns);
      var r := [RenderRow(data[0], columns)] + rest;
      assert forall i :: 1 <= i < |data| ==> r[i] == RenderRow(data[i], columns) by {
        forall i | 1 <= i < |data|
          ensures r[i] == RenderRow(data[i], columns)
        {
          assert r[i] == rest[i - 1];
          assert data[1..][i - 1] == data[i];
        }
      }
      r
  }

  /** A cell whose rendering throws: the status renderer's `TypeError`, or a
      value React refuses as a child. */
  predicate CellThrows(c: Cell) {
    c.TypeError? || (c.Plain? && React.HoldsObject(c.value))
  }

  /** The table body: for empty data, one placeholder cell spanning all the
      columns; otherwise the rendered rows, unless a row is `null` (its
      `row.custom_order_id` key throws) or some cell throws, either of which
      abandons the whole render. */
  function RenderBody(data: seq<Value>, columns: seq<Column>): (r: Body)
    ensures r.Placeholder? <==> data == []
    ensures r.Placeholder? ==> r.colSpan == |columns| && r.text == NoData
    ensures r.Crashed? <==>
      (exists i :: 0 <= i < |data| && data[i] == Null) ||
      exists i, j :: 0 <= i < |data| && 0 <= j < |columns| &&
        CellThrows(RenderValue(columns[j], GetValue(data[i], columns[j].key)))
    ensures r.Rows? ==> |r.cells| == |data|
    ensures r.Rows? ==> forall i :: 0 <= i < |data| ==> |r.cells[i]| == |columns|
    ensures r.Rows? ==> forall i, j :: 0 <= i < |data| && 0 <= j < |columns| ==>
      r.cells[i][j] == RenderValue(columns[j], GetValue(data[i], columns[j].key))
  {
    if |data| == 0 then Placeholder(|columns|, NoData)
    else
      var rows := RenderRows(data, columns);
      if exists i :: 0 <= i < |data| && data[i] == Null then Crashed
      else if exists i, j :: 0 <= i < |rows| && 0 <= j < |rows[i]| && CellThrows(rows[i][j]) then Crashed
      else Rows(rows)
  }

  /** A record holding a plain object under a column other than `status`
      abandons the table's render. */
  lemma ObjectCellCrashes(data: seq<Value>, columns: seq<Column>, i: nat, j: nat)
    requires i < |data| && j < |columns| && columns[j].key != StatusKey
    requires GetValue(data[i], columns[j].key).Obj?
    ensures RenderBody(data, columns) == Crashed
  {
    assert CellThrows(RenderValue(columns[j], GetValue(data[i], columns[j].key)));
  }

  /** A boolean value outside the `status` column leaves its cell empty. */
  lemma BooleanCellEmpty(col: Column, b: bool)
    requires col.key != StatusKey
    ensures !CellThrows(RenderValue(col, Bool(b)))
    ensures React.Child(RenderValue(col, Bool(b)).value) == React.Texts([])
  {
  }
}
