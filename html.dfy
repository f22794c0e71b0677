/**
 * The markup assemblers of table.go: fixed literal tags wrapped around
 * already-rendered text. Every reader of the source is a string here and
 * io.MultiReader over a list of readers is `Concat` of the list.
 */
module Html {
  import opened Wrappers

  /** Alignment codes (iota order in table.go); any other int gives a bare tag. */
  const Right: int := 0
  const Left: int := 1
  const Center: int := 2

  /** What a cell's opening tag says about alignment. */
  datatype Align = AlignRight | AlignLeft | AlignCenter | NoAlign

  /** The switch at the head of TableHeaderCell and TableCell: each class has exactly one code, NoAlign the rest. */
  function AlignOf(align: int): (a: Align)
    ensures a == AlignLeft <==> align == Left
    ensures a == AlignRight <==> align == Right
    ensures a == AlignCenter <==> align == Center
  {
    if align == Left then AlignLeft
    else if align == Right then AlignRight
    else if align == Center then AlignCenter
    else NoAlign
  }

  /** An int that selects the given alignment (3 stands for "any other value"). */
  function AlignCode(a: Align): (code: int)
    ensures AlignOf(code) == a
  {
    match a
    case AlignRight => Right
    case AlignLeft => Left
    case AlignCenter => Center
    case NoAlign => 3
  }

  /** The two cell tags: th (TableHeaderCell) and td (TableCell). */
  datatype CellKind = HeaderCell | DataCell

  /** The opening tag each case of the alignment switch writes. */
  function OpenTag(kind: CellKind, a: Align): string
  {
    match kind
    case HeaderCell =>
      (match a
       case AlignLeft => "<th align=\"left\">"
       case AlignRight => "<th align=\"right\">"
       case AlignCenter => "<th align=\"center\">"
       case NoAlign => "<th>")
    case DataCell =>
      (match a
       case AlignLeft => "<td align=\"left\">"
       case AlignRight => "<td align=\"right\">"
       case AlignCenter => "<td align=\"center\">"
       case NoAlign => "<td>")
  }

  function CloseTag(kind: CellKind): string
  {
    if kind == HeaderCell then "</th>" else "</td>"
  }

  /** A cell: opening tag for its alignment, the text unescaped, closing tag. */
  function Element(kind: CellKind, a: Align, text: string): string
  {
    OpenTag(kind, a) + text + CloseTag(kind)
  }

  /** io.MultiReader(parts...) read to the end; no parts, or only empty ones, give "". */
  function Concat(parts: seq<string>): (r: string)
    ensures |parts| == 1 ==> r == parts[0]
    ensures (forall i :: 0 <= i < |parts| ==> parts[i] == "") ==> r == ""
  {
    if parts == [] then "" else parts[0] + Concat(parts[1..])
  }

  lemma {:induction false} ConcatAppend(a: seq<string>, b: seq<string>)
    ensures Concat(a + b) == Concat(a) + Concat(b)
  {
    if a == [] {
      assert a + b == b;
    } else {
      assert (a + b)[1..] == a[1..] + b;
      ConcatAppend(a[1..], b);
    }
  }

  /** A complete table fragment: opens with <table> and closes with </tbody></table>. */
  predicate IsTable(f: string)
  {
    |f| >= 35 && f[..8] == "<table>\n" && f[|f| - 18..] == "</tbody>\n</table>\n"
  }

  /** The fragment carries a <thead> block straight after <table>. */
  predicate HasHead(f: string)
  {
    |f| >= 16 && f[..16] == "<table>\n<thead>\n"
  }

  /** table.go Table: the thead block only when a header reader is given. */
  function Table(header: Option<string>, body: string): (r: string)
    ensures IsTable(r)
    ensures HasHead(r) <==> header.Some?
  {
    var head := if header.Some? then "<thead>\n" + header.value + "</thead>\n" else "";
    var r := "<table>\n" + head + "\n<tbody>\n" + body + "</tbody>\n</table>\n";
    assert r[8] == if header.Some? then '<' else '\n';
    r
  }

  /**
   * Where a table's parts sit: the header text straight after
   * "<table>\n<thead>\n", the body text straight before "</tbody>\n</table>\n";
   * without a header nothing at all stands for the thead block.
   */
  lemma TableParts(header: Option<string>, body: string)
    ensures header.None? ==> |Table(header, body)| == 35 + |body|
    ensures header.Some? ==> |Table(header, body)| == 52 + |header.value| + |body|
    ensures header.Some? ==> Table(header, body)[16..16 + |header.value|] == header.value
    ensures var r := Table(header, body); r[|r| - 18 - |body|..|r| - 18] == body
  {
  }

  /** The exact text of a table whose header and body are single rows. */
  lemma HeadedTableText(head: string, body: string)
    ensures Table(Some(TableRow(head)), TableRow(body)) ==
      "<table>\n" + "<thead>\n" + "<tr>\n" + head + "\n</tr>\n" + "</thead>\n"
      + "\n<tbody>\n" + "<tr>\n" + body + "\n</tr>\n" + "</tbody>\n</table>\n"
  {
  }

  /** The exact text of a table without a header: no thead block, not even an empty one. */
  lemma HeadlessTableText(body: string)
    ensures Table(None, body) == "<table>\n" + "\n<tbody>\n" + body + "</tbody>\n</table>\n"
  {
    assert "<table>\n" + "" == "<table>\n";
  }

  /** The exact text of a table without a header whose body is one row. */
  lemma HeadlessRowTableText(row: string)
    ensures Table(None, TableRow(row)) ==
      "<table>\n" + "\n<tbody>\n" + "<tr>\n" + row + "\n</tr>\n" + "</tbody>\n</table>\n"
  {
    HeadlessTableText(TableRow(row));
  }

  /** table.go TableRow: the row gives back exactly its content. */
  function TableRow(text: string): (r: string)
    ensures ParseRow(r) == Some(text)
  {
    var r := "<tr>\n" + text + "\n</tr>\n";
    assert r[..5] == "<tr>\n";
    assert r[|r| - 7..] == "\n</tr>\n";
    assert r[5..|r| - 7] == text;
    r
  }

  /** table.go TableHeaderCell: the text, unchanged, between an opening tag and </th>. */
  function TableHeaderCell(text: string, align: int): (r: string)
    ensures |r| == |OpenTag(HeaderCell, AlignOf(align))| + |text| + 5
  {
    Element(HeaderCell, AlignOf(align), text)
  }

  /** table.go TableCell: the text, unchanged, between an opening tag and </td>. */
  function TableCell(text: string, align: int): (r: string)
    ensures |r| == |OpenTag(DataCell, AlignOf(align))| + |text| + 5
  {
    Element(DataCell, AlignOf(align), text)
  }

  /** Inverse of TableRow: the row's content, if f is a row. */
  function ParseRow(f: string): (r: Option<string>)
    ensures r.Some? ==> f == "<tr>\n" + r.value + "\n</tr>\n"
  {
    if |f| >= 12 && f[..5] == "<tr>\n" && f[|f| - 7..] == "\n</tr>\n" then
      var text := f[5..|f| - 7];
      assert f == f[..5] + text + f[|f| - 7..];
      Some(text)
    else None
  }

  predicate IsPrefix(p: string, s: string)
  {
    |p| <= |s| && s[..|p|] == p
  }

  /** The alignment whose opening tag starts s, if any. */
  function OpenedWith(kind: CellKind, s: string): Option<Align>
  {
    if IsPrefix(OpenTag(kind, AlignLeft), s) then Some(AlignLeft)
    else if IsPrefix(OpenTag(kind, AlignRight), s) then Some(AlignRight)
    else if IsPrefix(OpenTag(kind, AlignCenter), s) then Some(AlignCenter)
    else if IsPrefix(OpenTag(kind, NoAlign), s) then Some(NoAlign)
    else None
  }

  /** Inverse of Element: alignment and content of a cell of the given kind. */
  function ParseElement(kind: CellKind, f: string): (r: Option<(Align, string)>)
    ensures r.Some? ==> Element(kind, r.value.0, r.value.1) == f
  {
    var close := CloseTag(kind);
    if |f| < |close| || f[|f| - |close|..] != close then None
    else
      var inner := f[..|f| - |close|];
      match OpenedWith(kind, inner)
      case None => None
      case Some(a) =>
        var text := inner[|OpenTag(kind, a)|..];
        assert inner == OpenTag(kind, a) + text;
        assert f == inner + close;
        Some((a, text))
  }

  /** Two different opening tags of the same kind never start the same text. */
  lemma OpenTagsDiffer(kind: CellKind, a: Align, b: Align, s: string, t: string)
    requires a != b
    ensures OpenTag(kind, a) + s != OpenTag(kind, b) + t
  {
    var x, y := OpenTag(kind, a) + s, OpenTag(kind, b) + t;
    if a == NoAlign || b == NoAlign {
      assert x[3] != y[3];
    } else {
      assert x[11] != y[11];
    }
  }

  lemma ElementRoundTrip(kind: CellKind, a: Align, text: string)
    ensures ParseElement(kind, Element(kind, a, text)) == Some((a, text))
  {
    var f := Element(kind, a, text);
    var close := CloseTag(kind);
    var inner := OpenTag(kind, a) + text;
    assert f == inner + close;
    assert f[|f| - |close|..] == close;
    assert f[..|f| - |close|] == inner;
    forall b | b != a && IsPrefix(OpenTag(kind, b), inner)
      ensures false
    {
      var rest := inner[|OpenTag(kind, b)|..];
      assert inner == OpenTag(kind, b) + rest;
      OpenTagsDiffer(kind, a, b, text, rest);
    }
    assert IsPrefix(OpenTag(kind, a), inner);
    assert inner[|OpenTag(kind, a)|..] == text;
  }

  /** A data cell gives back exactly its alignment class and its unescaped text. */
  lemma CellRoundTrip(text: string, align: int)
    ensures ParseElement(DataCell, TableCell(text, align)) == Some((AlignOf(align), text))
  {
    ElementRoundTrip(DataCell, AlignOf(align), text);
  }

  /** A header cell gives back exactly its alignment class and its unescaped text. */
  lemma HeaderCellRoundTrip(text: string, align: int)
    ensures ParseElement(HeaderCell, TableHeaderCell(text, align)) == Some((AlignOf(align), text))
  {
    ElementRoundTrip(HeaderCell, AlignOf(align), text);
  }

  /** The opening tags the four-way switch of TableCell writes. */
  lemma CellOpeningTags(text: string, align: int)
    ensures align == Left ==> TableCell(text, align) == "<td align=\"left\">" + text + "</td>"
    ensures align == Right ==> TableCell(text, align) == "<td align=\"right\">" + text + "</td>"
    ensures align == Center ==> TableCell(text, align) == "<td align=\"center\">" + text + "</td>"
    ensures align != Right && align != Left && align != Center ==> TableCell(text, align) == "<td>" + text + "</td>"
  {
  }

  /** The opening tags the four-way switch of TableHeaderCell writes. */
  lemma HeaderCellOpeningTags(text: string, align: int)
    ensures align == Left ==> TableHeaderCell(text, align) == "<th align=\"left\">" + text + "</th>"
    ensures align == Right ==> TableHeaderCell(text, align) == "<th align=\"right\">" + text + "</th>"
    ensures align == Center ==> TableHeaderCell(text, align) == "<th align=\"center\">" + text + "</th>"
    ensures align != Right && align != Left && align != Center ==> TableHeaderCell(text, align) == "<th>" + text + "</th>"
  {
  }
}
