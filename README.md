# go-table in Dafny

A model of `table.go` from the go-table package, with proofs. The package is a small formatter. It turns a
decoded generic value into a byte-exact HTML table fragment:

- a map becomes a table with one header row of keys and one body row of values;
- a slice becomes a table without a header;
- a string is copied verbatim;
- any other scalar becomes its `%v` text.

It has two entry points:

- `MakeTable` takes a `map[string]interface{}` and refuses every other shape with `ErrBadType`.
- `MakeMultiRowTable` takes an explicit header list and a list of rows. Any row whose width differs from
  the header's gives `ErrColumnsNotMatched`.

The project has five files:

- `wrappers.dfy`: `Option`.
- `html.dfy` (module `Html`):
  - the alignment constants;
  - the markup builders `Table`, `TableRow`, `TableHeaderCell` and `TableCell`;
  - `io.MultiReader`, modelled as `Concat` of a list of strings;
  - decoders for rows and cells, with their round trips.
- `values.dfy` (module `Values`):
  - the value tree the renderer accepts;
  - Go maps as association lists;
  - `convert` as a loop and as the function it is proved against.
- `render.dfy` (module `Render`):
  - `makeCell`, `makeTable` and `makeArray` as one mutually recursive function family;
  - each loop of the source as a method proved equal to those functions;
  - `MakeTable`;
  - `MakeMultiRowTable` with its early return.
- `golden_tables.dfy` (module `GoldenTables`): the expected outputs of `table_test.go`, as lemmas about the model, plus two further cases read off `table.go` (`EmptyMultiRowTable` and `ShortRowFails`), which no Go test covers.

Every `io.Reader` is the string it would yield when read to the end. A Go map is a sequence of entries,
and the sequence order stands for the map's iteration order. Go leaves that order unspecified, so every
statement about order is in terms of that same sequence. `%v` text of a scalar is an opaque given string
(`Value.Other`, and `Pair.OtherKey` for a key).

## Model

| member | source | states |
|---|---|---|
| Html.OpenTag | table.go:45-72 | no contract: the eight literal opening tags that the switches at lines 45-54 and 63-72 write |
| Html.CloseTag | table.go:57-75 | no contract: the literal `</th>` written at line 57 and `</td>` written at line 75 |
| Html.AlignOf | table.go:45-54 | the alignment switch: Left, Right and Center each select their own class, and no other int selects it, so every other int falls to the bare tag |
| Html.AlignCode | table.go:10-14 | each of the four alignment classes is selected by some int: Right=0, Left=1, Center=2, and 3 for the bare tag |
| Html.Concat | table.go:108 | io.MultiReader read to the end: one reader yields exactly its own text, and no readers, or only empty ones, yield nothing |
| Html.ConcatAppend | table.go:144-147 | reading a MultiReader over two lists of readers in turn is reading each list in turn |
| Html.Table | table.go:21-33 | the result always starts with `<table>\n` and ends with `</tbody>\n</table>\n`; it has a thead block if and only if a header is given |
| Html.TableParts | table.go:21-33 | the header text sits right after `<table>\n<thead>\n`, the body text right before the closing tags; the length is 35 plus the body without a header, 52 plus header and body with one |
| Html.HeadlessTableText | table.go:21-33 | without a header the thead block is left out entirely, not written empty |
| Html.HeadedTableText | table.go:21-41 | the exact text of a table whose header and body are single rows |
| Html.HeadlessRowTableText | table.go:21-41 | the exact text of a headerless table with one body row |
| Html.TableRow | table.go:35-41 | a row is `<tr>\n`, the text, `\n</tr>\n`, and decoding it gives back exactly the text, for every text including the empty one |
| Html.TableHeaderCell | table.go:43-59 | a header cell is exactly as long as its alignment's opening tag, the text and the five characters of `</th>`; with Html.HeaderCellRoundTrip and Html.HeaderCellOpeningTags the text comes back unchanged |
| Html.TableCell | table.go:61-77 | a data cell is exactly as long as its alignment's opening tag, the text and the five characters of `</td>`; with Html.CellRoundTrip and Html.CellOpeningTags the text comes back unchanged |
| Html.ParseRow | table.go:35-41 | a row decoder whose every success is `<tr>\n`, the decoded content and `\n</tr>\n`, and nothing else |
| Html.ParseElement | table.go:43-77 | a cell decoder whose every success rebuilds the input from the decoded alignment class and content |
| Html.OpenTagsDiffer | table.go:43-77 | two different alignment classes of the same cell kind never open the same text |
| Html.ElementRoundTrip | table.go:43-77 | decoding a cell gives back its alignment class and its content, unescaped and unchanged |
| Html.HeaderCellRoundTrip | table.go:43-59 | TableHeaderCell(t, align) decodes to AlignOf(align) and t |
| Html.CellRoundTrip | table.go:61-77 | TableCell(t, align) decodes to AlignOf(align) and t |
| Html.HeaderCellOpeningTags | table.go:43-59 | a header cell opens with ` align="left"`, `"right"` or `"center"` for Left, Right or Center, with a bare `<th>` for any other int, and closes with `</th>` |
| Html.CellOpeningTags | table.go:61-77 | the same four-way switch for data cells, with `<td>` and `</td>` |
| Values.KeyText | table.go:82 | no contract: `fmt.Sprintf("%v", k)` of a source key, where a string key prints as itself and any other key is its given `%v` text |
| Values.Put | table.go:82 | map assignment never shrinks the map and grows it by at most one entry, and stores nothing nested deeper than the old map or the new value; Values.PutLookup shows every old key is kept |
| Values.PutLookup | table.go:82 | map assignment: the key is now present and holds the new value; every other key keeps its value |
| Values.PutUnique | table.go:82 | map assignment keeps the keys unique |
| Values.PutEntries | table.go:82 | map assignment stores nothing but the old entries and the new one |
| Values.ConvertFrom | table.go:81-83 | the loop of convert from a partly filled map: it never has fewer entries than that map, gains at most one per pair and nests nothing deeper than its inputs |
| Values.ConvertFromKeys | table.go:81-83 | the loop of convert ends with exactly the keys it started with plus the `%v` texts of the remaining source keys, and keeps keys unique |
| Values.Converted | table.go:79-85 | convert's result has at most as many entries as the source and nests no deeper |
| Values.Convert | table.go:79-85 | the loop of convert computes Converted of the source map |
| Values.ConvertedKeys | table.go:79-85 | the keys of the result are exactly the `%v` texts of the source keys, each once |
| Values.ConvertedFromSource | table.go:79-85 | every entry of the result is a source pair re-keyed by its key's `%v` text |
| Values.ConvertedNoCollision | table.go:79-85 | when no two source keys print alike, the result is the source pairs re-keyed, in the same order |
| Render.Error | table.go:16-19 | no contract: the two error values ErrBadType and ErrColumnsNotMatched, told apart by identity only |
| Render.CellHtml | table.go:87-101 | makeCell is total: a string renders verbatim, another scalar as its text, either map as a table with a head, a slice as a table without one |
| Render.NestedMapCell | table.go:87-92 | a map nested as a value renders in its cell exactly as MakeTable renders it standalone; a map[interface{}]interface{} is re-keyed by convert first |
| Render.MapTableHtml | table.go:111-119 | makeTable's output is always a complete table with a thead block |
| Render.KeyCells | table.go:114-115 | makeTable's header cells: exactly one per map entry |
| Render.EntryValueCells | table.go:114-116 | makeTable's body cells: exactly one per map entry |
| Render.KeyCellsAt | table.go:111-119 | makeTable has one header cell per entry; the i-th holds key i, centred |
| Render.ValueCellsAt | table.go:111-119 | makeTable has one data cell per entry; the i-th holds makeCell of value i, centred |
| Render.EntryCellsAt | table.go:111-119 | header cell i holds key i and data cell i holds makeCell of value i, in the same order |
| Render.MapTableLayout | table.go:111-119 | makeTable's output is the table of one header row of those n header cells and one body row of those n data cells |
| Render.MakeMapTable | table.go:111-119 | the loop of makeTable builds exactly MapTableHtml |
| Render.ArrayTableHtml | table.go:103-109 | makeArray's output is always a complete table without a thead block |
| Render.DataCells | table.go:105-107 | makeArray's cells: exactly one per element |
| Render.DataCellsAt | table.go:103-109 | makeArray has one data cell per element; the i-th holds makeCell of element i, centred |
| Render.ArrayTableLayout | table.go:103-109 | makeArray's output is a headerless table of one body row of those cells |
| Render.CenteredDataCells | table.go:104-107 | the cell loop of makeArray (and of each row in MakeMultiRowTable) builds exactly DataCells |
| Render.MakeArray | table.go:103-109 | makeArray builds exactly ArrayTableHtml |
| Render.MakeTable | table.go:121-126 | succeeds if and only if the input is a map[string]interface{}, with makeTable's output; otherwise ErrBadType and no output |
| Render.HeaderCells | table.go:133-135 | the header cells of MakeMultiRowTable: exactly one per head element |
| Render.HeaderCellsAt | table.go:133-135 | the header of MakeMultiRowTable has one centred header cell per head element, in order |
| Render.CenteredHeaderCells | table.go:133-135 | the head loop of MakeMultiRowTable builds exactly HeaderCells |
| Render.BodyRows | table.go:136-146 | the row loop either fails with ErrColumnsNotMatched or yields one row per body row |
| Render.BodyRowsSnoc | table.go:136-147 | a row of the right width that follows passing rows adds its own row at the end of tbody, and the multi-reader over tbody then yields the old text followed by that row |
| Render.BodyRowsResult | table.go:136-146 | the row loop fails, always with ErrColumnsNotMatched, if and only if some row's width is not len(head); on success row j holds the cells of body[j] |
| Render.MultiRowTableHtml | table.go:128-148 | MakeMultiRowTable either fails with ErrColumnsNotMatched or returns a complete table with a thead block |
| Render.MultiRowMismatch | table.go:128-148 | MakeMultiRowTable fails if and only if some row's width differs from len(head), and then returns ErrColumnsNotMatched with no output |
| Render.MultiRowLayout | table.go:128-148 | on success the output is the header row followed by exactly len(body) rows, each len(head) cells wide |
| Render.MakeMultiRowTable | table.go:128-148 | the method, with its early return inside the loop, computes MultiRowTableHtml |
| GoldenTables.EmptyMapTable | table_test.go:9-33 | an empty map gives an empty header row and an empty body row, byte for byte |
| GoldenTables.SimpleMapTable | table_test.go:35-59 | the expected output of TestMakeTableSimple |
| GoldenTables.MultiRowTable | table_test.go:61-89 | the expected output of TestMakeMultiRowTable |
| GoldenTables.NestedMapTable | table_test.go:91-128 | the expected output of TestMakeTableComplex, a converted map nested in a cell |
| GoldenTables.NestedArrayTable | table_test.go:130-163 | the expected output of TestMakeTableArray, a headerless table nested in a cell |
| GoldenTables.SliceIsBadType | table_test.go:165-171 | a slice at the top level is refused with ErrBadType |
| GoldenTables.EmptyMultiRowTable | table.go:128-148 | no head and no rows still give a header row, and an empty tbody |
| GoldenTables.ShortRowFails | table.go:138-140 | one short row makes the whole multi-row table fail with ErrColumnsNotMatched |

## Left out

- `examples/metadata.go` is not part of this model. It reads stdin, calls an external front-matter parser and writes to stdout.
- A Go `string` is a sequence of bytes; the model's is a sequence of characters. Every output is a plain concatenation of the input texts and fixed ASCII tags, so no content is lost. But the lengths in `Html.TableParts`, `Html.TableCell` and `Html.TableHeaderCell` count characters, and equal Go's `len` only for ASCII text.
- `io.Reader`, `io.MultiReader`, `io.Copy` and `bytes.Buffer`: modelled as strings and string concatenation. Streaming, partial reads and reader errors are not modelled. Each builder is a string function rather than a sequence of writes.
- `fmt.Sprintf("%v", ...)` of ints, floats, bools and other scalars is not modelled. Such a value or key carries its printed text as a given string.
- Go map iteration order is unspecified. The model fixes it as the order of the entry sequence. `TestMakeTableSimple` passes only when Go happens to visit `intValue` before `floatValue`, and `GoldenTables.SimpleMapTable` lists the entries in that order. For `convert` the model goes further: its result lists each key where the source first visits a key with that text, so `Values.ConvertedNoCollision` speaks of "the same order". Go's fresh map has its own iteration order, unrelated to the source's.
- Values.ConvertedKeys: it does not say which source value survives when two keys print alike (`1` and `"1"`). Go's choice depends on iteration order. The model keeps the first position and the last value, but no contract claims that.
- The error texts of `ErrBadType` ("Type not supported") and `ErrColumnsNotMatched` ("columns not matched") are not modelled. Only the identity of each error is (`Render.Error`).
- Cyclic values are not modelled: they cannot be built from an inductive datatype, and `makeCell` would not terminate on them.
- `makeCell`'s fall-through covers typed slices and typed maps (`[]int`, `map[string]int`). The model has no separate case for them: they are values of `Other`, carrying their `%v` text.
