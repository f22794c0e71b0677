/**
 * The expected outputs of table_test.go, byte for byte, as facts about the
 * model. Map literals are written in the order the expected text lists
 * their keys (the order in which those tests need Go to iterate them).
 */
module GoldenTables {
  import opened Wrappers
  import opened Html
  import opened Values
  import opened Render

  lemma ConcatTwo(parts: seq<string>)
    requires |parts| == 2
    ensures Concat(parts) == parts[0] + parts[1]
  {
    assert parts[1..][1..] == [];
    assert parts[1..] == [parts[1]];
  }

  lemma ConcatThree(parts: seq<string>)
    requires |parts| == 3
    ensures Concat(parts) == parts[0] + parts[1] + parts[2]
  {
    ConcatTwo(parts[1..]);
  }

  /** TestMakeTableEmpty: an empty map gives an empty header row and an empty body row. */
  lemma EmptyMapTable()
    ensures MakeTable(StrMap([])) ==
      Ok("<table>\n" + ("<thead>\n" + ("<tr>\n" + "" + "\n</tr>\n") + "</thead>\n")
         + "\n<tbody>\n" + ("<tr>\n" + "" + "\n</tr>\n") + "</tbody>\n</table>\n")
  {
    MapTableLayout([], [], []);
  }

  /** TestMakeTableSimple. */
  lemma SimpleMapTable()
    ensures MakeTable(StrMap([Entry("intValue", Other("1")), Entry("floatValue", Other("2.3"))])) ==
      Ok("<table>\n"
         + ("<thead>\n"
            + ("<tr>\n" + (("<th align=\"center\">" + "intValue" + "</th>") + ("<th align=\"center\">" + "floatValue" + "</th>")) + "\n</tr>\n")
            + "</thead>\n")
         + "\n<tbody>\n"
         + ("<tr>\n" + (("<td align=\"center\">" + "1" + "</td>") + ("<td align=\"center\">" + "2.3" + "</td>")) + "\n</tr>\n")
         + "</tbody>\n</table>\n")
  {
    var es := [Entry("intValue", Other("1")), Entry("floatValue", Other("2.3"))];
    var heads := [("<th align=\"center\">" + "intValue" + "</th>"), ("<th align=\"center\">" + "floatValue" + "</th>")];
    var cells := [("<td align=\"center\">" + "1" + "</td>"), ("<td align=\"center\">" + "2.3" + "</td>")];
    HeaderCellOpeningTags("intValue", Center);
    HeaderCellOpeningTags("floatValue", Center);
    CellOpeningTags("1", Center);
    CellOpeningTags("2.3", Center);
    MapTableLayout(es, heads, cells);
    ConcatTwo(heads);
    ConcatTwo(cells);
  }

  /** A body row of three values rendered as a, b and c: three centred cells. */
  lemma ThreeCellRow(xs: seq<Value>, a: string, b: string, c: string)
    requires |xs| == 3 && CellHtml(xs[0]) == a && CellHtml(xs[1]) == b && CellHtml(xs[2]) == c
    ensures TableRow(Concat(DataCells(xs))) ==
      "<tr>\n"
      + (("<td align=\"center\">" + a + "</td>")
         + ("<td align=\"center\">" + b + "</td>")
         + ("<td align=\"center\">" + c + "</td>"))
      + "\n</tr>\n"
  {
    DataCellsAt(xs);
    ConcatThree(DataCells(xs));
    CellOpeningTags(a, Center);
    CellOpeningTags(b, Center);
    CellOpeningTags(c, Center);
  }

  /** A header row of three values rendered as a, b and c: three centred header cells. */
  lemma ThreeHeaderCells(xs: seq<Value>, a: string, b: string, c: string)
    requires |xs| == 3 && CellHtml(xs[0]) == a && CellHtml(xs[1]) == b && CellHtml(xs[2]) == c
    ensures Concat(HeaderCells(xs)) ==
      ("<th align=\"center\">" + a + "</th>")
      + ("<th align=\"center\">" + b + "</th>")
      + ("<th align=\"center\">" + c + "</th>")
  {
    HeaderCellsAt(xs);
    ConcatThree(HeaderCells(xs));
    HeaderCellOpeningTags(a, Center);
    HeaderCellOpeningTags(b, Center);
    HeaderCellOpeningTags(c, Center);
  }

  /** Two body rows as wide as the header: one thead row, then the two rows in order. */
  lemma TwoRowLayout(head: seq<Value>, row0: seq<Value>, row1: seq<Value>)
    requires |row0| == |head| && |row1| == |head|
    ensures MultiRowTableHtml(head, [row0, row1]) ==
      Ok(Table(Some(TableRow(Concat(HeaderCells(head)))),
               TableRow(Concat(DataCells(row0))) + TableRow(Concat(DataCells(row1)))))
  {
    var body := [row0, row1];
    var rows := [TableRow(Concat(DataCells(row0))), TableRow(Concat(DataCells(row1)))];
    assert !Mismatch(|head|, body);
    MultiRowLayout(head, body, rows);
    ConcatTwo(rows);
  }

  /** TestMakeMultiRowTable. */
  lemma MultiRowTable()
    ensures MultiRowTableHtml(
              [Str("aa"), Str("bb"), Str("cc")],
              [[Str("aa"), Other("2"), Other("3")], [Str("bb"), Other("5"), Other("5.5")]]) ==
      Ok("<table>\n"
         + ("<thead>\n"
            + ("<tr>\n"
               + (("<th align=\"center\">" + "aa" + "</th>")
                  + ("<th align=\"center\">" + "bb" + "</th>")
                  + ("<th align=\"center\">" + "cc" + "</th>"))
               + "\n</tr>\n")
            + "</thead>\n")
         + "\n<tbody>\n"
         + (("<tr>\n"
             + (("<td align=\"center\">" + "aa" + "</td>")
                + ("<td align=\"center\">" + "2" + "</td>")
                + ("<td align=\"center\">" + "3" + "</td>"))
             + "\n</tr>\n")
            + ("<tr>\n"
               + (("<td align=\"center\">" + "bb" + "</td>")
                  + ("<td align=\"center\">" + "5" + "</td>")
                  + ("<td align=\"center\">" + "5.5" + "</td>"))
               + "\n</tr>\n"))
         + "</tbody>\n</table>\n")
  {
    var head := [Str("aa"), Str("bb"), Str("cc")];
    var row0 := [Str("aa"), Other("2"), Other("3")];
    var row1 := [Str("bb"), Other("5"), Other("5.5")];
    TwoRowLayout(head, row0, row1);
    ThreeHeaderCells(head, "aa", "bb", "cc");
    ThreeCellRow(row0, "aa", "2", "3");
    ThreeCellRow(row1, "bb", "5", "5.5");
  }

  /** A map with the single entry k: v, where v renders as text. */
  lemma OneEntryTable(k: string, v: Value, text: string)
    requires CellHtml(v) == text
    ensures MapTableHtml([Entry(k, v)]) ==
      "<table>\n"
      + ("<thead>\n" + ("<tr>\n" + ("<th align=\"center\">" + k + "</th>") + "\n</tr>\n") + "</thead>\n")
      + "\n<tbody>\n"
      + ("<tr>\n" + ("<td align=\"center\">" + text + "</td>") + "\n</tr>\n")
      + "</tbody>\n</table>\n"
  {
    HeaderCellOpeningTags(k, Center);
    CellOpeningTags(text, Center);
    MapTableLayout([Entry(k, v)], [TableHeaderCell(k, Center)], [TableCell(text, Center)]);
  }

  /** A one-pair map[interface{}]interface{} with a string key converts to the same single entry. */
  lemma OneStringKey(k: string, v: Value)
    ensures Converted([StrKey(k, v)]) == [Entry(k, v)]
  {
    ConvertedNoCollision([StrKey(k, v)]);
    RekeyedAt([StrKey(k, v)], 0);
  }

  /** TestMakeTableComplex: a nested map[interface{}]interface{} becomes a nested table. */
  lemma NestedMapTable()
    ensures MakeTable(StrMap([Entry("tableValue", AnyMap([StrKey("intValue", Other("1"))]))])) ==
      Ok("<table>\n"
         + ("<thead>\n" + ("<tr>\n" + ("<th align=\"center\">" + "tableValue" + "</th>") + "\n</tr>\n") + "</thead>\n")
         + "\n<tbody>\n"
         + ("<tr>\n"
            + ("<td align=\"center\">"
               + ("<table>\n"
                  + ("<thead>\n" + ("<tr>\n" + ("<th align=\"center\">" + "intValue" + "</th>") + "\n</tr>\n") + "</thead>\n")
                  + "\n<tbody>\n"
                  + ("<tr>\n" + ("<td align=\"center\">" + "1" + "</td>") + "\n</tr>\n")
                  + "</tbody>\n</table>\n")
               + "</td>")
            + "\n</tr>\n")
         + "</tbody>\n</table>\n")
  {
    var inner := [StrKey("intValue", Other("1"))];
    OneStringKey("intValue", Other("1"));
    OneEntryTable("intValue", Other("1"), "1");
    var nested :=
      "<table>\n"
      + ("<thead>\n" + ("<tr>\n" + ("<th align=\"center\">" + "intValue" + "</th>") + "\n</tr>\n") + "</thead>\n")
      + "\n<tbody>\n"
      + ("<tr>\n" + ("<td align=\"center\">" + "1" + "</td>") + "\n</tr>\n")
      + "</tbody>\n</table>\n";
    assert CellHtml(AnyMap(inner)) == nested;
    OneEntryTable("tableValue", AnyMap(inner), nested);
  }

  /** TestMakeTableArray: a nested slice becomes a headerless nested table. */
  lemma NestedArrayTable()
    ensures MakeTable(StrMap([Entry("array", Arr([Other("1"), Other("2"), Other("3")]))])) ==
      Ok("<table>\n"
         + ("<thead>\n" + ("<tr>\n" + ("<th align=\"center\">" + "array" + "</th>") + "\n</tr>\n") + "</thead>\n")
         + "\n<tbody>\n"
         + ("<tr>\n"
            + ("<td align=\"center\">"
               + ("<table>\n"
                  + "\n<tbody>\n"
                  + ("<tr>\n"
                     + (("<td align=\"center\">" + "1" + "</td>")
                        + ("<td align=\"center\">" + "2" + "</td>")
                        + ("<td align=\"center\">" + "3" + "</td>"))
                     + "\n</tr>\n")
                  + "</tbody>\n</table>\n")
               + "</td>")
            + "\n</tr>\n")
         + "</tbody>\n</table>\n")
  {
    var xs := [Other("1"), Other("2"), Other("3")];
    ThreeCellRow(xs, "1", "2", "3");
    HeadlessTableText(TableRow(Concat(DataCells(xs))));
    OneEntryTable("array", Arr(xs), CellHtml(Arr(xs)));
  }

  /** TestMakeTableBadType: a slice at the top is refused. */
  lemma SliceIsBadType()
    ensures MakeTable(Arr([])) == Err(BadType)
  {
  }

  /** No columns and no rows: the header row is still written, and the body is empty. */
  lemma EmptyMultiRowTable()
    ensures MultiRowTableHtml([], []) ==
      Ok("<table>\n" + ("<thead>\n" + ("<tr>\n" + "" + "\n</tr>\n") + "</thead>\n") + "\n<tbody>\n" + "" + "</tbody>\n</table>\n")
  {
    assert !Mismatch(0, []);
    MultiRowLayout([], [], []);
  }

  /** A row one cell short of the header makes the whole table fail. */
  lemma ShortRowFails()
    ensures MultiRowTableHtml([Str("aa"), Str("bb")], [[Str("aa"), Other("2")], [Str("bb")]]) == Err(ColumnsNotMatched)
  {
    var body := [[Str("aa"), Other("2")], [Str("bb")]];
    assert |body[1]| != 2;
    MultiRowMismatch([Str("aa"), Str("bb")], body);
  }
}
