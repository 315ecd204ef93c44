/** The per-school transaction search page: the debounced, trimmed school id,
    the load that numbers the fetched rows, the columns shown for them and the
    choice of what the page displays. */
module SchoolTransactions {
  import opened Js
  import opened Text
  import opened Table

  /** The page's fixed column list, in display order. */
  const Columns: seq<Column> := [
    Column("srNo", "Sr No"),
    Column("school_id", "School ID"),
    Column("custom_order_id", "Order ID"),
    Column("order_amount", "Order Amount"),
    Column("transaction_amount", "Transaction Amount"),
    Column("gateway_name", "Payment Method"),
    Column("status", "Status")
  ]

  const SrNo := "srNo"

  /** The fields object spread (`...tx`) copies; rows are objects, and any
      other value contributes nothing here. */
  function OwnFields(v: Value): map<string, Value> {
    if v.Obj? then v.fields else map[]
  }

  /** `{ srNo: n, ...tx }`: every field of `tx`, plus `srNo` set to `n` unless
      `tx` has its own `srNo`, which then wins. */
  function NumberRow(tx: Value, n: int): Value {
    Obj(map[SrNo := Num(n)] + OwnFields(tx))
  }

  /** A numbered row has every field of `tx` unchanged, plus `srNo`, which is
      `n` unless `tx` brought its own. */
  lemma NumberRowFields(tx: Value, n: int)
    ensures NumberRow(tx, n).Obj?
    ensures NumberRow(tx, n).fields.Keys == {SrNo} + OwnFields(tx).Keys
    ensures forall k :: k in OwnFields(tx) ==> NumberRow(tx, n).fields[k] == OwnFields(tx)[k]
    ensures SrNo !in OwnFields(tx) ==> NumberRow(tx, n).fields[SrNo] == Num(n)
  {
  }

  /** Numbering from `start`: the row at index `i` gets number `start + i`. */
  function NumberFrom(data: seq<Value>, start: int): (r: seq<Value>)
    ensures |r| == |data|
    ensures forall i :: 0 <= i < |data| ==> r[i] == NumberRow(data[i], start + i)
  {
    if data == [] then []
    else
      var rest := NumberFrom(data[1..], start + 1);
      var r := [NumberRow(data[0], start)] + rest;
      assert forall i :: 1 <= i < |data| ==> r[i] == NumberRow(data[i], start + i) by {
        forall i | 1 <= i < |data|
          ensures r[i] == NumberRow(data[i], start + i)
        {
          assert r[i] == rest[i - 1];
          assert data[1..][i - 1] == data[i];
        }
      }
      r
  }

  /** The `map((tx, idx) => ({ srNo: idx + 1, ...tx }))` over the fetched rows. */
  function Numbered(data: seq<Value>): (r: seq<Value>)
    ensures |r| == |data|
    ensures forall i :: 0 <= i < |data| ==> r[i] == NumberRow(data[i], i + 1)
  {
    NumberFrom(data, 1)
  }

  /** `(res.data || []).map(...)`: absent or falsy data gives no rows, an array
      is numbered, and any other truthy value has no `map` and throws (`None`). */
  function Listing(data: Option<Value>): (r: Option<seq<Value>>)
    ensures !Truthy(data) ==> r == Some([])
    ensures Truthy(data) ==> (r.Some? <==> data.value.Arr?)
    ensures Truthy(data) && r.Some? ==> r.value == Numbered(data.value.items)
  {
    if !Truthy(data) then Some([])
    else if data.value.Arr? then Some(Numbered(data.value.items))
    else None
  }

  /** `cols` with some entries left out, the rest in their original order. */
  ghost predicate Subsequence(a: seq<Column>, b: seq<Column>)
    decreases |b|
  {
    a == [] || (b != [] && ((a[0] == b[0] && Subsequence(a[1..], b[1..])) || Subsequence(a, b[1..])))
  }

  /** The columns whose key the row has as an own field, in the list's order:
      what the filter keeps when `hasOwnProperty` is the inherited method. */
  function OwnedColumns(cols: seq<Column>, row: Value): (r: seq<Column>)
    ensures forall c :: c in r <==> c in cols && HasOwn(row, c.key)
    ensures forall c :: multiset(r)[c] == if HasOwn(row, c.key) then multiset(cols)[c] else 0
    ensures Subsequence(r, cols)
  {
    if cols == [] then []
    else
      var rest := OwnedColumns(cols[1..], row);
      assert cols == [cols[0]] + cols[1..];
      assert multiset(cols) == multiset([cols[0]]) + multiset(cols[1..]);
      if HasOwn(row, cols[0].key) then
        assert ([cols[0]] + rest)[1..] == rest;
        [cols[0]] + rest
      else rest
  }

  const HasOwnPropertyKey := "hasOwnProperty"

  /** `columns.filter((col) => row?.hasOwnProperty(col.key))`. A row whose own
      field `hasOwnProperty` shadows the inherited method (a JSON value, never
      a function) makes the first call throw (`None`); otherwise the filter
      keeps the owned columns. */
  function FilterColumns(cols: seq<Column>, row: Value): (r: Option<seq<Column>>)
    ensures r.None? <==> cols != [] && HasOwn(row, HasOwnPropertyKey)
    ensures r.Some? ==> r.value == OwnedColumns(cols, row)
  {
    if cols != [] && HasOwn(row, HasOwnPropertyKey) then None else Some(OwnedColumns(cols, row))
  }

  /** Every numbered row carries its own `srNo`. */
  lemma NumberedHasSrNo(data: seq<Value>)
    ensures forall t :: t in Numbered(data) ==> HasOwn(t, SrNo)
  {
    forall t | t in Numbered(data)
      ensures HasOwn(t, SrNo)
    {
      var i :| 0 <= i < |data| && Numbered(data)[i] == t;
      NumberRowFields(data[i], i + 1);
    }
  }

  /** A row that has `srNo` shows the `Sr No` column, and shows it first. */
  lemma SrNoFirst(row: Value)
    requires HasOwn(row, SrNo)
    ensures var cols := OwnedColumns(Columns, row);
      cols != [] && cols[0] == Column(SrNo, "Sr No")
  {
    assert Columns[0] == Column(SrNo, "Sr No");
    assert OwnedColumns(Columns, row) == [Columns[0]] + OwnedColumns(Columns[1..], row);
  }

  /** The numbered rows always show the `Sr No` column, and show it first. */
  lemma SrNoColumnFirst(data: seq<Value>)
    requires data != []
    ensures var cols := OwnedColumns(Columns, Numbered(data)[0]);
      cols != [] && cols[0] == Column(SrNo, "Sr No")
  {
    NumberedHasSrNo(data);
    SrNoFirst(Numbered(data)[0]);
  }

  /** What the page shows below the input. */
  datatype PageView =
    | Loading
    | TableView(rows: seq<Value>, columns: seq<Column>)
    | NoneFound(schoolId: string)
    | Prompt
    | Thrown

  /** The display choice, in order of precedence: loading, then the table if
      there are rows (or an abandoned render if filtering the columns throws),
      then "No transactions found" for a non-empty school id, and otherwise
      the prompt to enter one. */
  function ViewOf(loading: bool, transactions: seq<Value>, schoolId: string): (r: PageView)
    ensures r.Loading? <==> loading
    ensures r.TableView? <==>
      !loading && transactions != [] && !HasOwn(transactions[0], HasOwnPropertyKey)
    ensures r.Thrown? <==>
      !loading && transactions != [] && HasOwn(transactions[0], HasOwnPropertyKey)
    ensures r.TableView? ==>
      r.rows == transactions && r.columns == OwnedColumns(Columns, transactions[0])
    ensures r.NoneFound? <==> !loading && transactions == [] && schoolId != ""
    ensures r.NoneFound? ==> r.schoolId == schoolId
    ensures r.Prompt? <==> !loading && transactions == [] && schoolId == ""
  {
    if loading then Loading
    else if |transactions| > 0 then
      match FilterColumns(Columns, transactions[0])
      case Some(columns) => TableView(transactions, columns)
      case None => Thrown
    else if schoolId != "" then NoneFound(schoolId)
    else Prompt
  }

  /** The page's state: the raw input, the debounced school id, the numbered
      transactions and the loading flag. */
  class SchoolTransactionsPage {
    var schoolInput: string
    var schoolId: string
    var transactions: seq<Value>
    var loading: bool

    /** Every listed transaction carries its `srNo`. */
    ghost predicate Valid()
      reads this
    {
      forall t :: t in transactions ==> HasOwn(t, SrNo)
    }

    constructor ()
      ensures Valid()
      ensures schoolInput == "" && schoolId == "" && transactions == [] && !loading
    {
      schoolInput := "";
      schoolId := "";
      transactions := [];
      loading := false;
    }

    /** The input's change handler. */
    method Edit(text: string)
      requires Valid()
      modifies this`schoolInput
      ensures Valid()
      ensures schoolInput == text
    {
      schoolInput := text;
    }

    /** The debounce timer firing: the searched id is the input with its
        surrounding white space trimmed. */
    method Debounce()
      requires Valid()
      modifies this`schoolId
      ensures Valid()
      ensures schoolId == Trim(schoolInput)
      ensures Tight(schoolId)
    {
      schoolId := Trim(schoolInput);
    }

    /** The effect run when the school id changes, up to the request's
        `await`: an empty id empties the list and sends nothing; otherwise
        loading starts. */
    method SchoolIdChanged() returns (requested: bool)
      requires Valid()
      modifies this`transactions, this`loading
      ensures Valid()
      ensures requested <==> schoolId != ""
      ensures !requested ==> transactions == [] && loading == old(loading)
      ensures requested ==> loading && transactions == old(transactions)
    {
      if schoolId == "" {
        transactions := [];
        return false;
      }
      loading := true;
      requested := true;
    }

    /** `loadData` after its `await`: a listing replaces the transactions; a
        rejected request, or data that cannot be mapped, leaves them as they
        were. Loading ends either way. */
    method FinishLoad(reply: Fetch)
      requires Valid()
      modifies this`transactions, this`loading
      ensures Valid()
      ensures !loading
      ensures transactions ==
        if reply.Fetched? && Listing(reply.data).Some? then Listing(reply.data).value
        else old(transactions)
    {
      match reply {
        case Fetched(data) =>
          var listing := Listing(data);
          if listing.Some? {
            if Truthy(data) {
              NumberedHasSrNo(data.value.items);
            }
            transactions := listing.value;
          }
        case Rejected =>
      }
      loading := false;
    }

    /** What the page displays for the current state: a table always leads
        with the `Sr No` column. */
    function View(): (r: PageView)
      reads this
      requires Valid()
      ensures r.TableView? ==> r.columns != [] && r.columns[0] == Column(SrNo, "Sr No")
    {
      if transactions != [] then SrNoFirst(transactions[0]); ViewOf(loading, transactions, schoolId)
      else ViewOf(loading, transactions, schoolId)
    }
  }

  /** A white-space-only input searches for nothing: the list is emptied and no
      request is made. */
  method SearchBlank(page: SchoolTransactionsPage, text: string) returns (requested: bool)
    requires AllSpace(text) && page.Valid()
    modifies page
    ensures !requested && page.transactions == [] && page.schoolId == ""
  {
    page.Edit(text);
    page.Debounce();
    TrimEmpty(text);
    requested := page.SchoolIdChanged();
  }
}
