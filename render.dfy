/**
 * The renderer of table.go: makeCell dispatches on the shape of a value,
 * makeTable and makeArray lay out nested tables, MakeTable and
 * MakeMultiRowTable are the two entry points.
 *
 * Each loop of the source is a method proved equal to a function; the
 * functions are what makeCell recurses through, and the lemmas say what
 * they produce cell by cell.
 */
module Render {
  import opened Wrappers
  import opened Html
  import opened Values

  /** ErrBadType and ErrColumnsNotMatched. */
  datatype Error = BadType | ColumnsNotMatched

  /** (reader, nil) or (nil, err): on failure there is no output at all. */
  datatype Result<T> = Ok(value: T) | Err(error: Error)

  /**
   * makeCell: a map becomes a table with a header row, a slice a table
   * without one, a string is copied verbatim and any other value is its %v text.
   */
  function CellHtml(v: Value): (r: string)
    ensures v.Str? ==> r == v.s
    ensures v.Other? ==> r == v.text
    ensures v.StrMap? || v.AnyMap? ==> IsTable(r) && HasHead(r)
    ensures v.Arr? ==> IsTable(r) && !HasHead(r)
    decreases Depth(v), 0, 0
  {
    match v
    case AnyMap(ps) => MapTableHtml(Converted(ps))
    case StrMap(es) => MapTableHtml(es)
    case Arr(xs) => ArrayTableHtml(xs)
    case Str(s) => s
    case Other(t) => t
  }

  /** What makeTable returns: one header row of keys, one body row of values. */
  function MapTableHtml(es: seq<Entry>): (r: string)
    ensures IsTable(r) && HasHead(r)
    decreases EntriesDepth(es), 2, 0
  {
    Table(Some(TableRow(Concat(KeyCells(es)))), TableRow(Concat(EntryValueCells(es))))
  }

  /** The thead cells makeTable appends, one per key in iteration order. */
  function KeyCells(es: seq<Entry>): (r: seq<string>)
    ensures |r| == |es|
    decreases EntriesDepth(es), 1, |es|
  {
    if es == [] then []
    else [TableHeaderCell(CellHtml(Str(es[0].key)), Center)] + KeyCells(es[1..])
  }

  /** The tbody cells makeTable appends, one per value in iteration order. */
  function EntryValueCells(es: seq<Entry>): (r: seq<string>)
    ensures |r| == |es|
    decreases EntriesDepth(es), 1, |es|
  {
    if es == [] then []
    else [TableCell(CellHtml(es[0].value), Center)] + EntryValueCells(es[1..])
  }

  /** What makeArray returns: no header, one body row. */
  function ArrayTableHtml(xs: seq<Value>): (r: string)
    ensures IsTable(r) && !HasHead(r)
    decreases ElemsDepth(xs), 2, 0
  {
    Table(None, TableRow(Concat(DataCells(xs))))
  }

  /** One centred data cell per element, in order. */
  function DataCells(xs: seq<Value>): (r: seq<string>)
    ensures |r| == |xs|
    decreases ElemsDepth(xs), 1, |xs|
  {
    if xs == [] then []
    else [TableCell(CellHtml(xs[0]), Center)] + DataCells(xs[1..])
  }

  /** One centred header cell per element, in order (the head of MakeMultiRowTable). */
  function HeaderCells(xs: seq<Value>): (r: seq<string>)
    ensures |r| == |xs|
  {
    if xs == [] then []
    else [TableHeaderCell(CellHtml(xs[0]), Center)] + HeaderCells(xs[1..])
  }

  lemma {:induction false} EntryCellsSnoc(es: seq<Entry>, e: Entry)
    ensures KeyCells(es + [e]) == KeyCells(es) + [TableHeaderCell(CellHtml(Str(e.key)), Center)]
    ensures EntryValueCells(es + [e]) == EntryValueCells(es) + [TableCell(CellHtml(e.value), Center)]
  {
    if es == [] {
      assert es + [e] == [e];
      assert [e][1..] == [];
    } else {
      assert (es + [e])[0] == es[0];
      assert (es + [e])[1..] == es[1..] + [e];
      EntryCellsSnoc(es[1..], e);
    }
  }

  lemma {:induction false} DataCellsSnoc(xs: seq<Value>, x: Value)
    ensures DataCells(xs + [x]) == DataCells(xs) + [TableCell(CellHtml(x), Center)]
  {
    if xs == [] {
      assert xs + [x] == [x];
      assert [x][1..] == [];
    } else {
      assert (xs + [x])[1..] == xs[1..] + [x];
      DataCellsSnoc(xs[1..], x);
    }
  }

  lemma {:induction false} HeaderCellsSnoc(xs: seq<Value>, x: Value)
    ensures HeaderCells(xs + [x]) == HeaderCells(xs) + [TableHeaderCell(CellHtml(x), Center)]
  {
    if xs == [] {
      assert xs + [x] == [x];
      assert [x][1..] == [];
    } else {
      assert (xs + [x])[1..] == xs[1..] + [x];
      HeaderCellsSnoc(xs[1..], x);
    }
  }

  /** The i-th header cell of a map's table holds key i, the i-th data cell the rendering of value i. */
  lemma {:induction false} EntryCellsAt(es: seq<Entry>)
    ensures |KeyCells(es)| == |es| && |EntryValueCells(es)| == |es|
    ensures forall i :: 0 <= i < |es| ==> KeyCells(es)[i] == TableHeaderCell(es[i].key, Center)
    ensures forall i :: 0 <= i < |es| ==> EntryValueCells(es)[i] == TableCell(CellHtml(es[i].value), Center)
  {
    KeyCellsAt(es);
    ValueCellsAt(es);
  }

  lemma {:induction false} KeyCellsAt(es: seq<Entry>)
    ensures |KeyCells(es)| == |es|
    ensures forall i :: 0 <= i < |es| ==> KeyCells(es)[i] == TableHeaderCell(es[i].key, Center)
  {
    if es != [] {
      KeyCellsAt(es[1..]);
      forall i | 0 < i < |es| ensures KeyCells(es)[i] == TableHeaderCell(es[i].key, Center) {
        assert es[1..][i - 1] == es[i];
      }
    }
  }

  lemma {:induction false} ValueCellsAt(es: seq<Entry>)
    ensures |EntryValueCells(es)| == |es|
    ensures forall i :: 0 <= i < |es| ==> EntryValueCells(es)[i] == TableCell(CellHtml(es[i].value), Center)
  {
    if es != [] {
      ValueCellsAt(es[1..]);
      forall i | 0 < i < |es| ensures EntryValueCells(es)[i] == TableCell(CellHtml(es[i].value), Center) {
        assert es[1..][i - 1] == es[i];
      }
    }
  }

  lemma {:induction false} DataCellsAt(xs: seq<Value>)
    ensures |DataCells(xs)| == |xs|
    ensures forall i :: 0 <= i < |xs| ==> DataCells(xs)[i] == TableCell(CellHtml(xs[i]), Center)
  {
    if xs != [] {
      DataCellsAt(xs[1..]);
      forall i | 0 < i < |xs| ensures DataCells(xs)[i] == TableCell(CellHtml(xs[i]), Center) {
        assert xs[1..][i - 1] == xs[i];
      }
    }
  }

  /** The i-th header cell holds the rendering of element i. */
  lemma {:induction false} HeaderCellsAt(xs: seq<Value>)
    ensures |HeaderCells(xs)| == |xs|
    ensures forall i :: 0 <= i < |xs| ==> HeaderCells(xs)[i] == TableHeaderCell(CellHtml(xs[i]), Center)
  {
    if xs != [] {
      HeaderCellsAt(xs[1..]);
      forall i | 0 < i < |xs| ensures HeaderCells(xs)[i] == TableHeaderCell(CellHtml(xs[i]), Center) {
        assert xs[1..][i - 1] == xs[i];
      }
    }
  }

  /**
   * makeTable, cell by cell: for n entries, any n header cells holding the
   * keys and n data cells holding the rendered values, both in iteration
   * order and centred, give exactly the table makeTable builds.
   */
  lemma MapTableLayout(es: seq<Entry>, heads: seq<string>, cells: seq<string>)
    requires |heads| == |es| && |cells| == |es|
    requires forall i :: 0 <= i < |es| ==> heads[i] == TableHeaderCell(es[i].key, Center)
    requires forall i :: 0 <= i < |es| ==> cells[i] == TableCell(CellHtml(es[i].value), Center)
    ensures MapTableHtml(es) == Table(Some(TableRow(Concat(heads))), TableRow(Concat(cells)))
  {
    EntryCellsAt(es);
    assert KeyCells(es) == heads;
    assert EntryValueCells(es) == cells;
  }

  /**
   * makeArray, cell by cell: no thead, and one body row of one centred cell
   * per element holding that element's rendering, in order.
   */
  lemma ArrayTableLayout(xs: seq<Value>, cells: seq<string>)
    requires |cells| == |xs|
    requires forall i :: 0 <= i < |xs| ==> cells[i] == TableCell(CellHtml(xs[i]), Center)
    ensures ArrayTableHtml(xs) == Table(None, TableRow(Concat(cells)))
    ensures !HasHead(ArrayTableHtml(xs))
  {
    DataCellsAt(xs);
    assert DataCells(xs) == cells;
  }

  /** Extending a prefix by one element. */
  lemma PrefixSnoc<T>(s: seq<T>, k: nat)
    requires k < |s|
    ensures s[..k + 1] == s[..k] + [s[k]]
  {
  }

  /** The loop over head in MakeMultiRowTable: one centred header cell per value. */
  method CenteredHeaderCells(values: seq<Value>) returns (cells: seq<string>)
    ensures cells == HeaderCells(values)
  {
    cells := [];
    for i := 0 to |values|
      invariant cells == HeaderCells(values[..i])
    {
      HeaderCellsSnoc(values[..i], values[i]);
      PrefixSnoc(values, i);
      cells := cells + [TableHeaderCell(CellHtml(values[i]), Center)];
    }
    assert values[..|values|] == values;
  }

  /** The loop of makeArray and the loop over one row in MakeMultiRowTable: one centred cell per value. */
  method CenteredDataCells(values: seq<Value>) returns (cells: seq<string>)
    ensures cells == DataCells(values)
  {
    cells := [];
    for i := 0 to |values|
      invariant cells == DataCells(values[..i])
    {
      DataCellsSnoc(values[..i], values[i]);
      PrefixSnoc(values, i);
      cells := cells + [TableCell(CellHtml(values[i]), Center)];
    }
    assert values[..|values|] == values;
  }

  /** table.go makeArray. */
  method MakeArray(data: seq<Value>) returns (out: string)
    ensures out == ArrayTableHtml(data)
  {
    var row := CenteredDataCells(data);
    out := Table(None, TableRow(Concat(row)));
  }

  /** table.go makeTable: one loop appends a header cell and a data cell per entry. */
  method MakeMapTable(data: seq<Entry>) returns (out: string)
    ensures out == MapTableHtml(data)
  {
    var thead: seq<string> := [];
    var tbody: seq<string> := [];
    for i := 0 to |data|
      invariant thead == KeyCells(data[..i]) && tbody == EntryValueCells(data[..i])
    {
      EntryCellsSnoc(data[..i], data[i]);
      PrefixSnoc(data, i);
      thead := thead + [TableHeaderCell(CellHtml(Str(data[i].key)), Center)];
      tbody := tbody + [TableCell(CellHtml(data[i].value), Center)];
    }
    assert data[..|data|] == data;
    out := Table(Some(TableRow(Concat(thead))), TableRow(Concat(tbody)));
  }

  /** table.go MakeTable: only a map[string]interface{} is accepted at the top. */
  function MakeTable(raw: Value): (r: Result<string>)
    ensures r.Ok? <==> raw.StrMap?
    ensures r.Err? ==> r.error == BadType
    ensures r.Ok? ==> r.value == MapTableHtml(raw.entries) && HasHead(r.value)
  {
    match raw
    case StrMap(es) => Ok(MapTableHtml(es))
    case _ => Err(BadType)
  }

  /**
   * A map nested as the value of entry i renders inside its cell exactly as
   * MakeTable renders it standalone; a map[interface{}]interface{} is first
   * re-keyed by convert.
   */
  lemma NestedMapCell(es: seq<Entry>, i: nat)
    requires i < |es|
    ensures |EntryValueCells(es)| == |es|
    ensures es[i].value.StrMap? ==>
      EntryValueCells(es)[i] == TableCell(MakeTable(es[i].value).value, Center)
    ensures es[i].value.AnyMap? ==>
      EntryValueCells(es)[i] == TableCell(MakeTable(StrMap(Converted(es[i].value.pairs))).value, Center)
  {
    EntryCellsAt(es);
  }

  /** The body rows of MakeMultiRowTable, checked in order; the first short row ends it. */
  function BodyRows(width: nat, body: seq<seq<Value>>): (r: Result<seq<string>>)
    ensures r.Err? ==> r.error == ColumnsNotMatched
    ensures r.Ok? ==> |r.value| == |body|
  {
    if body == [] then Ok([])
    else if |body[0]| != width then Err(ColumnsNotMatched)
    else
      match BodyRows(width, body[1..])
      case Err(e) => Err(e)
      case Ok(rows) => Ok([TableRow(Concat(DataCells(body[0])))] + rows)
  }

  /** Appending a row as wide as the header to rows that all pass adds its rendering at the end. */
  lemma {:induction false} BodyRowsSnoc(width: nat, body: seq<seq<Value>>, row: seq<Value>)
    requires BodyRows(width, body).Ok? && |row| == width
    ensures BodyRows(width, body + [row]) == Ok(BodyRows(width, body).value + [TableRow(Concat(DataCells(row)))])
    ensures Concat(BodyRows(width, body + [row]).value) == Concat(BodyRows(width, body).value) + TableRow(Concat(DataCells(row)))
  {
    if body == [] {
      var last := TableRow(Concat(DataCells(row)));
      assert body + [row] == [row];
      assert [row][1..] == [];
      assert BodyRows(width, [row]) == Ok([last] + []);
      assert [last] + [] == [] + [last];
    } else {
      assert (body + [row])[0] == body[0];
      assert (body + [row])[1..] == body[1..] + [row];
      BodyRowsSnoc(width, body[1..], row);
      var first, rest := TableRow(Concat(DataCells(body[0]))), BodyRows(width, body[1..]).value;
      var last := TableRow(Concat(DataCells(row)));
      assert BodyRows(width, body).value == [first] + rest;
      assert [first] + (rest + [last]) == [first] + rest + [last];
    }
    ConcatAppend(BodyRows(width, body).value, [TableRow(Concat(DataCells(row)))]);
  }

  /** What MakeMultiRowTable returns. */
  function MultiRowTableHtml(head: seq<Value>, body: seq<seq<Value>>): (r: Result<string>)
    ensures r.Err? ==> r.error == ColumnsNotMatched
    ensures r.Ok? ==> IsTable(r.value) && HasHead(r.value)
  {
    match BodyRows(|head|, body)
    case Err(e) => Err(e)
    case Ok(rows) => Ok(Table(Some(TableRow(Concat(HeaderCells(head)))), Concat(rows)))
  }

  /** Some row's length differs from the header's. */
  predicate Mismatch(width: nat, body: seq<seq<Value>>)
  {
    exists j :: 0 <= j < |body| && |body[j]| != width
  }

  lemma {:induction false} BodyRowsResult(width: nat, body: seq<seq<Value>>)
    ensures BodyRows(width, body).Err? <==> Mismatch(width, body)
    ensures BodyRows(width, body).Err? ==> BodyRows(width, body).error == ColumnsNotMatched
    ensures BodyRows(width, body).Ok? ==> |BodyRows(width, body).value| == |body|
    ensures BodyRows(width, body).Ok? ==> forall j :: 0 <= j < |body| ==>
      BodyRows(width, body).value[j] == TableRow(Concat(DataCells(body[j])))
  {
    if body != [] {
      BodyRowsResult(width, body[1..]);
      if BodyRows(width, body).Ok? {
        forall j | 0 < j < |body| ensures body[1..][j - 1] == body[j] { }
      }
      if Mismatch(width, body[1..]) {
        var j :| 0 <= j < |body[1..]| && |body[1..][j]| != width;
        assert |body[j + 1]| != width;
      }
      if Mismatch(width, body) && |body[0]| == width {
        var j :| 0 <= j < |body| && |body[j]| != width;
        assert |body[1..][j - 1]| != width;
      }
    }
  }

  /**
   * MakeMultiRowTable fails, with ErrColumnsNotMatched and no output, exactly
   * when some row's length differs from len(head).
   */
  lemma MultiRowMismatch(head: seq<Value>, body: seq<seq<Value>>)
    ensures MultiRowTableHtml(head, body).Err? <==> Mismatch(|head|, body)
    ensures Mismatch(|head|, body) ==> MultiRowTableHtml(head, body) == Err(ColumnsNotMatched)
  {
    BodyRowsResult(|head|, body);
  }

  /**
   * On success the header row is always there, and the body is exactly
   * len(body) rows, row j holding one centred cell per element of body[j],
   * each row len(head) cells wide.
   */
  lemma MultiRowLayout(head: seq<Value>, body: seq<seq<Value>>, rows: seq<string>)
    requires !Mismatch(|head|, body)
    requires |rows| == |body|
    requires forall j :: 0 <= j < |body| ==> rows[j] == TableRow(Concat(DataCells(body[j])))
    ensures MultiRowTableHtml(head, body) == Ok(Table(Some(TableRow(Concat(HeaderCells(head)))), Concat(rows)))
    ensures forall j :: 0 <= j < |body| ==> |DataCells(body[j])| == |head|
  {
    BodyRowsResult(|head|, body);
    assert BodyRows(|head|, body).value == rows;
    forall j | 0 <= j < |body| ensures |DataCells(body[j])| == |head| {
      DataCellsAt(body[j]);
    }
  }

  /** table.go MakeMultiRowTable, with its early return on the first short or long row. */
  method MakeMultiRowTable(head: seq<Value>, body: seq<seq<Value>>) returns (r: Result<string>)
    ensures r == MultiRowTableHtml(head, body)
  {
    var tbody: seq<string> := [];
    var columnCount := |head|;
    var thead := CenteredHeaderCells(head);
    for k := 0 to |body|
      invariant BodyRows(columnCount, body[..k]) == Ok(tbody)
    {
      var row := body[k];
      if columnCount != |row| {
        assert MultiRowTableHtml(head, body) == Err(ColumnsNotMatched) by {
          assert |body[k]| != |head|;
          MultiRowMismatch(head, body);
        }
        return Err(ColumnsNotMatched);
      }
      var trow := CenteredDataCells(row);
      BodyRowsSnoc(columnCount, body[..k], row);
      PrefixSnoc(body, k);
      tbody := tbody + [TableRow(Concat(trow))];
    }
    assert body[..|body|] == body;
    r := Ok(Table(Some(TableRow(Concat(thead))), Concat(tbody)));
  }
}
